/** Hybrid search: reciprocal rank fusion of the vector ranking and the text ranking,
  * then a centrality boost for entities. Scores are reals. */
module Fusion {

  import opened Owners
  import Ranking

  datatype AggScore = AggScore(owner: Owner, total: real, vecScore: real, textScore: real)

  const RRF_CONSTANT := 60

  function Rrf(weight: real, rank: nat): real { weight * (1.0 / (RRF_CONSTANT + rank) as real) }

  /** What a ranking gives an owner: one share for each place it holds. */
  function Share(ranking: seq<Owner>, weight: real, o: Owner): real {
    if ranking == [] then 0.0 else
    var n := |ranking| - 1;
    Share(ranking[..n], weight, o) + if ranking[n] == o then Rrf(weight, n) else 0.0
  }

  function Fused(vec: seq<Owner>, text: seq<Owner>, vecWeight: real, textWeight: real, o: Owner): AggScore {
    var v, t := Share(vec, vecWeight, o), Share(text, textWeight, o);
    AggScore(o, v + t, v, t)
  }

  /** 0.1 * (deg / (deg + 5)) for an entity with neighbours in a graph that has nodes. */
  function Boost(degrees: map<int, nat>, o: Owner): (b: real)
    ensures 0.0 <= b
  {
    if o.kind.Entity? && o.id in degrees && degrees[o.id] > 0
    then 0.1 * (degrees[o.id] as real / (degrees[o.id] as real + 5.0)) else 0.0
  }

  function Boosted(degrees: map<int, nat>, row: AggScore): AggScore {
    row.(total := row.total + Boost(degrees, row.owner))
  }

  // ---------------------------------------------------------------- filling the score map

  lemma ShareSnoc(ranking: seq<Owner>, k: nat, weight: real, o: Owner)
    requires k < |ranking|
    ensures Share(ranking[..k + 1], weight, o)
            == Share(ranking[..k], weight, o) + if ranking[k] == o then Rrf(weight, k) else 0.0
  {
    assert ranking[..k + 1][..k] == ranking[..k];
  }

  lemma {:induction false} ShareOfAbsent(ranking: seq<Owner>, weight: real, o: Owner)
    requires o !in ranking
    ensures Share(ranking, weight, o) == 0.0
  {
    if ranking != [] {
      ShareOfAbsent(ranking[..|ranking| - 1], weight, o);
    }
  }

  /** The scores after the given parts of both rankings: one entry for each owner named. */
  ghost predicate Scored(scores: map<Owner, AggScore>, vec: seq<Owner>, text: seq<Owner>, vw: real, tw: real) {
    && (forall o :: o in scores <==> o in vec || o in text)
    && forall o :: o in scores ==> scores[o] == Fused(vec, text, vw, tw, o)
  }

  method Fuse(vec: seq<Owner>, text: seq<Owner>, vecWeight: real, textWeight: real)
    returns (scores: map<Owner, AggScore>)
    ensures Scored(scores, vec, text, vecWeight, textWeight)
  {
    scores := map[];
    for rank := 0 to |vec|
      invariant Scored(scores, vec[..rank], [], vecWeight, textWeight)
    {
      var o, rrf := vec[rank], Rrf(vecWeight, rank);
      var entry := if o in scores then scores[o] else AggScore(o, 0.0, 0.0, 0.0);
      VecStep(scores, vec, rank, vecWeight, textWeight);
      scores := scores[o := entry.(total := entry.total + rrf, vecScore := entry.vecScore + rrf)];
    }
    assert vec[..|vec|] == vec && text[..0] == [];
    for rank := 0 to |text|
      invariant Scored(scores, vec, text[..rank], vecWeight, textWeight)
    {
      var o, rrf := text[rank], Rrf(textWeight, rank);
      var entry := if o in scores then scores[o] else AggScore(o, 0.0, 0.0, 0.0);
      TextStep(scores, vec, text, rank, vecWeight, textWeight);
      scores := scores[o := entry.(total := entry.total + rrf, textScore := entry.textScore + rrf)];
    }
    assert text[..|text|] == text;
  }

  lemma VecStep(scores: map<Owner, AggScore>, vec: seq<Owner>, k: nat, vw: real, tw: real)
    requires k < |vec| && Scored(scores, vec[..k], [], vw, tw)
    ensures var entry := if vec[k] in scores then scores[vec[k]] else AggScore(vec[k], 0.0, 0.0, 0.0);
            var rrf := Rrf(vw, k);
            Scored(scores[vec[k] := entry.(total := entry.total + rrf, vecScore := entry.vecScore + rrf)],
                   vec[..k + 1], [], vw, tw)
  {
    assert forall o :: o in vec[..k + 1] <==> o in vec[..k] || o == vec[k];
    forall o ensures Share(vec[..k + 1], vw, o) == Share(vec[..k], vw, o) + if vec[k] == o then Rrf(vw, k) else 0.0 {
      ShareSnoc(vec, k, vw, o);
    }
    if vec[k] !in scores { ShareOfAbsent(vec[..k], vw, vec[k]); }
  }

  lemma TextStep(scores: map<Owner, AggScore>, vec: seq<Owner>, text: seq<Owner>, k: nat, vw: real, tw: real)
    requires k < |text| && Scored(scores, vec, text[..k], vw, tw)
    ensures var entry := if text[k] in scores then scores[text[k]] else AggScore(text[k], 0.0, 0.0, 0.0);
            var rrf := Rrf(tw, k);
            Scored(scores[text[k] := entry.(total := entry.total + rrf, textScore := entry.textScore + rrf)],
                   vec, text[..k + 1], vw, tw)
  {
    assert forall o :: o in text[..k + 1] <==> o in text[..k] || o == text[k];
    forall o ensures Share(text[..k + 1], tw, o) == Share(text[..k], tw, o) + if text[k] == o then Rrf(tw, k) else 0.0 {
      ShareSnoc(text, k, tw, o);
    }
    if text[k] !in scores {
      ShareOfAbsent(vec, vw, text[k]);
      ShareOfAbsent(text[..k], tw, text[k]);
    }
  }

  // ---------------------------------------------------------------- the sorted rows

  ghost predicate Descending(rows: seq<AggScore>) {
    forall i, j :: 0 <= i < j < |rows| ==> rows[i].total >= rows[j].total
  }

  ghost predicate OneEach(rows: seq<AggScore>) {
    forall i, j :: 0 <= i < j < |rows| ==> rows[i].owner != rows[j].owner
  }

  /** The rows are the entries of the map, each once. */
  ghost predicate Lists(rows: seq<AggScore>, scores: map<Owner, AggScore>) {
    && OneEach(rows)
    && (forall i :: 0 <= i < |rows| ==> rows[i].owner in scores && rows[i] == scores[rows[i].owner])
    && forall o :: o in scores ==> scores[o] in rows
  }

  function Insert(rows: seq<AggScore>, row: AggScore): seq<AggScore> {
    if rows == [] || row.total >= rows[0].total then [row] + rows
    else [rows[0]] + Insert(rows[1..], row)
  }

  lemma {:induction false} InsertKeeps(rows: seq<AggScore>, row: AggScore)
    ensures multiset(Insert(rows, row)) == multiset(rows) + multiset{row}
  {
    if !(rows == [] || row.total >= rows[0].total) {
      InsertKeeps(rows[1..], row);
      assert rows == [rows[0]] + rows[1..];
    }
  }

  lemma {:induction false} InsertSorts(rows: seq<AggScore>, row: AggScore)
    requires Descending(rows)
    ensures Descending(Insert(rows, row))
  {
    if !(rows == [] || row.total >= rows[0].total) {
      var rest := Insert(rows[1..], row);
      InsertSorts(rows[1..], row);
      InsertKeeps(rows[1..], row);
      forall k | 0 <= k < |rest| ensures rest[k].total <= rows[0].total {
        assert rest[k] in multiset(rest);
        assert rest[k] == row || rest[k] in rows[1..];
      }
    }
  }

  /** An unstable sort: nothing is promised about the order of equal totals. */
  method SortByTotal(rows: seq<AggScore>) returns (sorted: seq<AggScore>)
    ensures Descending(sorted) && multiset(sorted) == multiset(rows)
  {
    sorted := [];
    for i := 0 to |rows|
      invariant Descending(sorted) && multiset(sorted) == multiset(rows[..i])
    {
      assert rows[..i + 1] == rows[..i] + [rows[i]];
      InsertSorts(sorted, rows[i]);
      InsertKeeps(sorted, rows[i]);
      sorted := Insert(sorted, rows[i]);
    }
    assert rows[..|rows|] == rows;
  }

  lemma {:induction false} OneEachCount(rows: seq<AggScore>, r: AggScore)
    requires OneEach(rows)
    ensures multiset(rows)[r] <= 1
  {
    if rows != [] {
      OneEachCount(rows[1..], r);
      assert rows == [rows[0]] + rows[1..];
      assert rows[0] !in rows[1..];
    }
  }

  lemma TwiceCount(rows: seq<AggScore>, i: nat, j: nat)
    requires i < j < |rows| && rows[i] == rows[j]
    ensures multiset(rows)[rows[i]] >= 2
  {
    assert rows == rows[..j] + rows[j..];
    assert rows[i] in rows[..j] && rows[j] in rows[j..];
  }

  lemma SortKeepsLists(rows: seq<AggScore>, sorted: seq<AggScore>, scores: map<Owner, AggScore>)
    requires Lists(rows, scores) && multiset(sorted) == multiset(rows)
    ensures Lists(sorted, scores)
  {
    assert forall r :: r in sorted <==> r in multiset(sorted);
    assert forall r :: r in rows <==> r in multiset(rows);
    forall i | 0 <= i < |sorted| ensures sorted[i].owner in scores && sorted[i] == scores[sorted[i].owner] {
      assert sorted[i] in multiset(sorted);
      var k :| 0 <= k < |rows| && rows[k] == sorted[i];
    }
    forall i, j | 0 <= i < j < |sorted| ensures sorted[i].owner != sorted[j].owner {
      if sorted[i].owner == sorted[j].owner {
        TwiceCount(sorted, i, j);
        OneEachCount(rows, sorted[i]);
        assert false;
      }
    }
  }

  /** Collecting the map's values, in whatever order it has them. */
  method Values(scores: map<Owner, AggScore>) returns (rows: seq<AggScore>)
    requires forall o :: o in scores ==> scores[o].owner == o
    ensures Lists(rows, scores)
  {
    rows := [];
    var left := scores.Keys;
    while left != {}
      invariant left <= scores.Keys && OneEach(rows)
      invariant forall i :: 0 <= i < |rows| ==>
                  rows[i].owner in scores && rows[i].owner !in left && rows[i] == scores[rows[i].owner]
      invariant forall o :: o in scores && o !in left ==> scores[o] in rows
      decreases left
    {
      var o :| o in left;
      rows := rows + [scores[o]];
      left := left - {o};
    }
  }

  function BoostedScores(scores: map<Owner, AggScore>, degrees: map<int, nat>): map<Owner, AggScore> {
    map o | o in scores :: Boosted(degrees, scores[o])
  }

  /** The whole ranking: fuse, sort, boost if the graph has nodes, sort again. */
  method Rank(vec: seq<Owner>, text: seq<Owner>, vecWeight: real, textWeight: real, degrees: map<int, nat>)
    returns (rows: seq<AggScore>)
    ensures Descending(rows) && OneEach(rows)
    ensures forall o :: (o in vec || o in text) <==> (exists i :: 0 <= i < |rows| && rows[i].owner == o)
    ensures forall i :: 0 <= i < |rows| ==>
              rows[i] == Boosted(degrees, Fused(vec, text, vecWeight, textWeight, rows[i].owner))
  {
    var scores := Fuse(vec, text, vecWeight, textWeight);
    var all := Values(scores);
    rows := SortByTotal(all);
    SortKeepsLists(all, rows, scores);
    var boosted := BoostedScores(scores, degrees);
    if degrees != map[] {
      var before := rows;
      for i := 0 to |rows|
        invariant |rows| == |before|
        invariant forall k :: 0 <= k < |rows| ==> rows[k] == if k < i then Boosted(degrees, before[k]) else before[k]
      {
        rows := rows[i := Boosted(degrees, rows[i])];
      }
      BoostKeepsLists(before, rows, scores, degrees);
      var unsorted := rows;
      rows := SortByTotal(unsorted);
      SortKeepsLists(unsorted, rows, boosted);
    } else {
      assert boosted == scores;
    }
    ListsNames(rows, boosted);
  }

  lemma BoostKeepsLists(before: seq<AggScore>, after: seq<AggScore>, scores: map<Owner, AggScore>, degrees: map<int, nat>)
    requires Lists(before, scores) && |after| == |before|
    requires forall k :: 0 <= k < |after| ==> after[k] == Boosted(degrees, before[k])
    ensures Lists(after, BoostedScores(scores, degrees))
  {
    forall o | o in scores ensures Boosted(degrees, scores[o]) in after {
      var k :| 0 <= k < |before| && before[k] == scores[o];
      assert after[k] == Boosted(degrees, scores[o]);
    }
  }

  lemma ListsNames(rows: seq<AggScore>, scores: map<Owner, AggScore>)
    requires Lists(rows, scores) && forall o :: o in scores ==> scores[o].owner == o
    ensures forall o :: o in scores <==> exists i :: 0 <= i < |rows| && rows[i].owner == o
  {
    forall o | o in scores ensures exists i :: 0 <= i < |rows| && rows[i].owner == o {
      var i :| 0 <= i < |rows| && rows[i] == scores[o];
      assert rows[i].owner == o;
    }
  }

  // ---------------------------------------------------------------- what the totals promise

  ghost predicate Distinct(ranking: seq<Owner>) {
    forall i, j :: 0 <= i < j < |ranking| ==> ranking[i] != ranking[j]
  }

  lemma {:induction false} ShareOfRanked(ranking: seq<Owner>, weight: real, k: nat)
    requires Distinct(ranking) && k < |ranking|
    ensures Share(ranking, weight, ranking[k]) == Rrf(weight, k)
  {
    var front := ranking[..|ranking| - 1];
    if k == |front| {
      ShareOfAbsent(front, weight, ranking[k]);
    } else {
      ShareOfRanked(front, weight, k);
    }
  }

  lemma RrfFalls(weight: real, i: nat, j: nat)
    requires weight >= 0.0 && i <= j
    ensures Rrf(weight, i) >= Rrf(weight, j) >= 0.0
    ensures weight > 0.0 && i < j ==> Rrf(weight, i) > Rrf(weight, j)
    ensures weight > 0.0 ==> Rrf(weight, j) > 0.0
  {
    var x, y := 1.0 / (RRF_CONSTANT + i) as real, 1.0 / (RRF_CONSTANT + j) as real;
    assert x >= y > 0.0 && (i < j ==> x > y);
    Scale(weight, x, y);
  }

  lemma Scale(w: real, x: real, y: real)
    requires w >= 0.0 && x >= y > 0.0
    ensures w * x >= w * y >= 0.0
    ensures w > 0.0 ==> w * y > 0.0 && (x > y ==> w * x > w * y)
  {
  }

  /** `a` stands at least as high as `b` wherever `b` stands. */
  ghost predicate NoLower(ranking: seq<Owner>, a: Owner, b: Owner) {
    forall j :: 0 <= j < |ranking| && ranking[j] == b ==> exists i :: 0 <= i <= j && ranking[i] == a
  }

  lemma ShareIsMonotone(ranking: seq<Owner>, weight: real, a: Owner, b: Owner)
    requires Distinct(ranking) && weight >= 0.0 && NoLower(ranking, a, b)
    ensures Share(ranking, weight, a) >= Share(ranking, weight, b) >= 0.0
    ensures a != b && weight > 0.0 && b in ranking ==> Share(ranking, weight, a) > Share(ranking, weight, b)
  {
    if b in ranking {
      var j :| 0 <= j < |ranking| && ranking[j] == b;
      var i :| 0 <= i <= j && ranking[i] == a;
      ShareOfRanked(ranking, weight, i);
      ShareOfRanked(ranking, weight, j);
      RrfFalls(weight, i, j);
    } else {
      ShareOfAbsent(ranking, weight, b);
      if a in ranking {
        var i :| 0 <= i < |ranking| && ranking[i] == a;
        ShareOfRanked(ranking, weight, i);
        RrfFalls(weight, i, i);
      } else {
        ShareOfAbsent(ranking, weight, a);
      }
    }
  }

  /** An owner that stands at least as high as another in every ranking the other appears
    * in has at least its total before the boost; strictly more where a positive weight
    * counts a ranking in which they are told apart. */
  lemma Dominance(vec: seq<Owner>, text: seq<Owner>, vw: real, tw: real, a: Owner, b: Owner)
    requires Distinct(vec) && Distinct(text) && vw >= 0.0 && tw >= 0.0
    requires NoLower(vec, a, b) && NoLower(text, a, b)
    ensures Fused(vec, text, vw, tw, a).total >= Fused(vec, text, vw, tw, b).total
    ensures a != b && ((vw > 0.0 && b in vec) || (tw > 0.0 && b in text)) ==>
              Fused(vec, text, vw, tw, a).total > Fused(vec, text, vw, tw, b).total
  {
    ShareIsMonotone(vec, vw, a, b);
    ShareIsMonotone(text, tw, a, b);
  }

  function OwnersOf(s: seq<Ranking.Best>): (owners: seq<Owner>)
    ensures |owners| == |s| && forall i :: 0 <= i < |s| ==> owners[i] == s[i].owner
  {
    seq(|s|, i requires 0 <= i < |s| => s[i].owner)
  }

  /** The vector ranking never repeats an owner: it is the aggregated best-chunk search. */
  lemma VectorRankingIsDistinct(
      live: nat -> Ranking.Live, f: Ranking.Filter, distance: seq<real> -> real, rows: seq<Ranking.SnapshotVector>,
      k: nat, topK: nat)
    ensures var best := Ranking.BestChunks(live, f, distance, rows, k);
            Distinct(OwnersOf(Ranking.Take(
              Ranking.StableSort(Ranking.BEST_DIST, Ranking.BestEach(Ranking.FirstPerOwner(best))), topK)))
  {
    var best := Ranking.BestChunks(live, f, distance, rows, k);
    Ranking.AggregatingBestChunksKeepsRows(live, f, distance, rows, k, topK);
    Ranking.FirstIsDistinct(Ranking.StableSort(Ranking.DIST, Ranking.Scan(live, f, distance, rows)));
    assert Ranking.DistinctOwners(best);
  }

  /** How often a ranking names an owner. */
  function Count(ranking: seq<Owner>, o: Owner): nat {
    if ranking == [] then 0 else
    var n := |ranking| - 1;
    Count(ranking[..n], o) + if ranking[n] == o then 1 else 0
  }

  /** Every prefix names `a` at least as often as `b`. */
  ghost predicate NeverBehind(ranking: seq<Owner>, a: Owner, b: Owner) {
    forall n :: 0 <= n <= |ranking| ==> Count(ranking[..n], a) >= Count(ranking[..n], b)
  }

  lemma NeverBehindFront(ranking: seq<Owner>, a: Owner, b: Owner)
    requires NeverBehind(ranking, a, b) && ranking != []
    ensures NeverBehind(ranking[..|ranking| - 1], a, b) && Count(ranking, a) >= Count(ranking, b)
  {
    var front := ranking[..|ranking| - 1];
    assert ranking[..|ranking|] == ranking;
    forall n | 0 <= n <= |front| ensures Count(front[..n], a) >= Count(front[..n], b) {
      assert front[..n] == ranking[..n];
    }
  }

  function Worth(lead: int, share: real): real { lead as real * share }

  lemma LeadStep(before: int, gain: int, share: real, next: real)
    requires before + gain >= 0 && share >= next
    ensures Worth(before, share) + Worth(gain, share) >= Worth(before + gain, next)
  {
    var b, g := before as real, gain as real;
    assert (before + gain) as real == b + g;
    assert b * share + g * share == (b + g) * share;
    assert (b + g) * (share - next) >= 0.0;
    assert (b + g) * share - (b + g) * next == (b + g) * (share - next);
  }

  function Gain(last: Owner, a: Owner, b: Owner): int {
    (if last == a then 1 else 0) - (if last == b then 1 else 0)
  }

  function Lead(ranking: seq<Owner>, a: Owner, b: Owner): int { Count(ranking, a) - Count(ranking, b) }

  lemma ShareGain(ranking: seq<Owner>, weight: real, a: Owner, b: Owner)
    requires ranking != []
    ensures var n := |ranking| - 1;
            var front, gain := ranking[..n], Gain(ranking[n], a, b);
            && Lead(ranking, a, b) == Lead(front, a, b) + gain
            && Share(ranking, weight, a) - Share(ranking, weight, b)
               == Share(front, weight, a) - Share(front, weight, b) + Worth(gain, Rrf(weight, n))
  {
    assert forall r: real :: Worth(1, r) == r && Worth(-1, r) == -r && Worth(0, r) == 0.0;
  }

  /** The lead in shares is at least the lead in places, each worth the share to come. */
  lemma {:induction false} LeadIsWorth(ranking: seq<Owner>, weight: real, a: Owner, b: Owner)
    requires weight >= 0.0 && NeverBehind(ranking, a, b)
    ensures Share(ranking, weight, a) - Share(ranking, weight, b)
            >= Worth(Lead(ranking, a, b), Rrf(weight, |ranking|))
  {
    if ranking != [] {
      var n := |ranking| - 1;
      NeverBehindFront(ranking, a, b);
      LeadIsWorth(ranking[..n], weight, a, b);
      ShareGain(ranking, weight, a, b);
      RrfFalls(weight, n, n + 1);
      LeadStep(Lead(ranking[..n], a, b), Gain(ranking[n], a, b), Rrf(weight, n), Rrf(weight, n + 1));
    }
  }

  /** With repeats allowed: an owner that every prefix of both rankings names at least as
    * often as another has at least its total before the boost. */
  lemma CountedDominance(vec: seq<Owner>, text: seq<Owner>, vw: real, tw: real, a: Owner, b: Owner)
    requires vw >= 0.0 && tw >= 0.0 && NeverBehind(vec, a, b) && NeverBehind(text, a, b)
    ensures Fused(vec, text, vw, tw, a).total >= Fused(vec, text, vw, tw, b).total
  {
    CountedShare(vec, vw, a, b);
    CountedShare(text, tw, a, b);
  }

  lemma CountedShare(ranking: seq<Owner>, weight: real, a: Owner, b: Owner)
    requires weight >= 0.0 && NeverBehind(ranking, a, b)
    ensures Share(ranking, weight, a) >= Share(ranking, weight, b)
  {
    LeadIsWorth(ranking, weight, a, b);
    RrfFalls(weight, |ranking|, |ranking|);
    assert ranking[..|ranking|] == ranking;
    assert Lead(ranking, a, b) as real >= 0.0;
    assert Worth(Lead(ranking, a, b), Rrf(weight, |ranking|)) >= 0.0;
  }

  /** Dominance needs rankings without repeats: an owner matched twice by the text search
    * overtakes the one above it. */
  lemma RepeatedMatchOvertakes()
    ensures var a, b := Owner(Entity, 1), Owner(Entity, 2);
            && NoLower([a, b, b], a, b)
            && Fused([], [a, b, b], 0.5, 0.5, a).total < Fused([], [a, b, b], 0.5, 0.5, b).total
  {
    var a, b := Owner(Entity, 1), Owner(Entity, 2);
    var text := [a, b, b];
    assert text[0] == a;
    assert text[..2] == [a, b] && [a, b][..1] == [a];
    ShareOfAbsent([a], 0.5, b);
    ShareOfRanked([a], 0.5, 0);
    ShareOfRanked([a, b], 0.5, 0);
    assert Share([a, b], 0.5, b) == Rrf(0.5, 1);
    assert Share(text, 0.5, a) == Rrf(0.5, 0) && Share(text, 0.5, b) == Rrf(0.5, 1) + Rrf(0.5, 2);
  }

  /** The boost lies in [0, 0.1), grows with the degree, is positive exactly for entities
    * with a neighbour, and is then at least 1/60. */
  lemma BoostRange(degrees: map<int, nat>, a: Owner, b: Owner)
    ensures 0.0 <= Boost(degrees, a) < 0.1
    ensures Boost(degrees, a) > 0.0 <==> a.kind.Entity? && a.id in degrees && degrees[a.id] > 0
    ensures Boost(degrees, a) > 0.0 ==> Boost(degrees, a) >= 1.0 / 60.0
    ensures Boost(degrees, a) > 0.0 && Boost(degrees, b) > 0.0 ==>
              (Boost(degrees, a) >= Boost(degrees, b) <==> degrees[a.id] >= degrees[b.id])
  {
    if a.kind.Entity? && a.id in degrees && degrees[a.id] > 0 {
      var x := degrees[a.id] as real;
      Ratio(x);
      if b.kind.Entity? && b.id in degrees && degrees[b.id] > 0 {
        var y := degrees[b.id] as real;
        Ratio(y);
        if x < y { RatioRises(x, y); }
        if y < x { RatioRises(y, x); }
      }
    }
  }

  lemma Ratio(x: real)
    requires x >= 1.0
    ensures 1.0 / 6.0 <= x / (x + 5.0) < 1.0
  {
    assert (x / (x + 5.0)) * (x + 5.0) == x;
  }

  lemma RatioRises(x: real, y: real)
    requires 1.0 <= x < y
    ensures x / (x + 5.0) < y / (y + 5.0)
  {
    var p, q := x / (x + 5.0), y / (y + 5.0);
    assert p * (x + 5.0) == x && q * (y + 5.0) == y;
    Ratio(x);
    assert (1.0 - p) * (y - x) > 0.0;
    assert (q - p) * (y + 5.0) == (1.0 - p) * (y - x);
  }

  /** Ranks alone carry at most a sixtieth of the weight for each place. */
  lemma {:induction false} ShareIsSmall(ranking: seq<Owner>, weight: real, o: Owner)
    requires weight >= 0.0
    ensures 0.0 <= Share(ranking, weight, o) <= Worth(Count(ranking, o), weight / 60.0)
  {
    if ranking != [] {
      var n := |ranking| - 1;
      ShareIsSmall(ranking[..n], weight, o);
      RrfFalls(weight, 0, n);
      assert Rrf(weight, 0) == weight / 60.0;
      OneMore(Count(ranking[..n], o), weight / 60.0);
    }
  }

  lemma OneMore(count: nat, share: real)
    ensures Worth(count + 1, share) == Worth(count, share) + share
  {
    assert (count + 1) as real * share == count as real * share + share;
  }

  /** The boost outweighs the ranks: every entity with a neighbour ends no lower than every
    * row without a boost whose places, each counted with the weight of its ranking, come to
    * at most one, whatever the two rankings say. */
  lemma BoostOutweighsRanks(
      vec: seq<Owner>, text: seq<Owner>, vw: real, tw: real, degrees: map<int, nat>, a: Owner, b: Owner)
    requires vw >= 0.0 && tw >= 0.0 && Worth(Count(vec, b), vw) + Worth(Count(text, b), tw) <= 1.0
    requires a.kind.Entity? && a.id in degrees && degrees[a.id] > 0 && Boost(degrees, b) == 0.0
    ensures Boosted(degrees, Fused(vec, text, vw, tw, a)).total >= Boosted(degrees, Fused(vec, text, vw, tw, b)).total
  {
    ShareIsSmall(vec, vw, a);
    ShareIsSmall(text, tw, a);
    ShareIsSmall(vec, vw, b);
    ShareIsSmall(text, tw, b);
    Sixtieth(Count(vec, b), vw);
    Sixtieth(Count(text, b), tw);
    BoostRange(degrees, a, b);
  }

  lemma Sixtieth(count: nat, weight: real)
    ensures Worth(count, weight / 60.0) == Worth(count, weight) / 60.0
  {
    var c, w := count as real, weight / 60.0;
    assert weight == 60.0 * w;
    assert c * weight == 60.0 * (c * w);
  }

  /** So with non-negative weights that add up to at most one, as the defaults do, it
    * outweighs two rankings that do not repeat the row. */
  lemma BoostOutweighsDefaults(
      vec: seq<Owner>, text: seq<Owner>, vw: real, tw: real, degrees: map<int, nat>, a: Owner, b: Owner)
    requires vw >= 0.0 && tw >= 0.0 && vw + tw <= 1.0 && Count(vec, b) <= 1 && Count(text, b) <= 1
    requires a.kind.Entity? && a.id in degrees && degrees[a.id] > 0 && Boost(degrees, b) == 0.0
    ensures Boosted(degrees, Fused(vec, text, vw, tw, a)).total >= Boosted(degrees, Fused(vec, text, vw, tw, b)).total
  {
    assert Worth(1, vw) == vw && Worth(1, tw) == tw && Worth(0, vw) == 0.0 && Worth(0, tw) == 0.0;
    BoostOutweighsRanks(vec, text, vw, tw, degrees, a, b);
  }

  // ---------------------------------------------------------------- the rows returned

  function Filtered(rows: seq<AggScore>, shown: AggScore -> bool): seq<AggScore> {
    if rows == [] then [] else
    var front := Filtered(rows[..|rows| - 1], shown);
    if shown(rows[|rows| - 1]) then front + [rows[|rows| - 1]] else front
  }

  lemma {:induction false} FilteredPrefix(rows: seq<AggScore>, k: nat, shown: AggScore -> bool)
    requires k <= |rows|
    ensures Filtered(rows[..k], shown) <= Filtered(rows, shown)
  {
    if k == |rows| {
      assert rows[..k] == rows;
    } else {
      var front := rows[..|rows| - 1];
      assert rows[..k] == front[..k];
      FilteredPrefix(front, k, shown);
    }
  }

  /** The first `topK` rows that still resolve, in order. */
  method TopRows(rows: seq<AggScore>, shown: AggScore -> bool, topK: nat) returns (results: seq<AggScore>)
    requires topK >= 1
    ensures results <= Filtered(rows, shown)
    ensures |results| == topK || (|results| < topK && results == Filtered(rows, shown))
  {
    results := [];
    for i := 0 to |rows|
      invariant results == Filtered(rows[..i], shown) && |results| < topK
    {
      assert rows[..i + 1][..i] == rows[..i];
      if shown(rows[i]) {
        results := results + [rows[i]];
        if |results| == topK {
          FilteredPrefix(rows, i + 1, shown);
          return;
        }
      }
    }
    assert rows[..|rows|] == rows;
  }
}
