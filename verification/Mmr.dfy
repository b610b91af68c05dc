/** Maximal marginal relevance: the greedy loop that trades nearness against
  * likeness to what is already selected. Scores are reals. */
module Mmr {
  import opened Wrappers

  /** A candidate: its matched embedding and its distance, whose negation is its relevance. */
  datatype MmrCand = MmrCand(owner: string, emb: seq<real>, dist: real)

  type Similarity = (seq<real>, seq<real>) -> real

  type Scorer = (MmrCand, seq<MmrCand>) -> real

  /** How alike `c` is to the selected one most like it, and never below zero. */
  function MaxSim(sim: Similarity, c: MmrCand, selected: seq<MmrCand>): real {
    if selected == [] then 0.0 else
      var rest, s := MaxSim(sim, c, selected[..|selected| - 1]), sim(c.emb, selected[|selected| - 1].emb);
      if s > rest then s else rest
  }

  function Score(balance: real, sim: Similarity, c: MmrCand, selected: seq<MmrCand>): real {
    balance * -c.dist - (1.0 - balance) * MaxSim(sim, c, selected)
  }

  function Clamp(balance: real): (l: real)
    ensures 0.0 <= l <= 1.0 && (0.0 <= balance <= 1.0 ==> l == balance)
  {
    if balance < 0.0 then 0.0 else if balance > 1.0 then 1.0 else balance
  }

  function SwapRemove(s: seq<MmrCand>, i: nat): (r: seq<MmrCand>)
    requires i < |s|
    ensures |r| == |s| - 1
  {
    s[i := s[|s| - 1]][..|s| - 1]
  }

  lemma SwapRemoveMoves(s: seq<MmrCand>, i: nat)
    requires i < |s|
    ensures multiset(SwapRemove(s, i)) + multiset{s[i]} == multiset(s)
  {
    var n := |s| - 1;
    assert s == s[..n] + [s[n]];
    if i < n {
      assert s[..n] == s[..i] + [s[i]] + s[i + 1..n];
      assert SwapRemove(s, i) == s[..i] + [s[n]] + s[i + 1..n];
    } else {
      assert SwapRemove(s, i) == s[..n];
    }
  }

  /** Selecting more makes no candidate more attractive. */
  lemma ScoreFalls(balance: real, sim: Similarity, c: MmrCand, selected: seq<MmrCand>, x: MmrCand)
    requires 0.0 <= balance <= 1.0
    ensures Score(balance, sim, c, selected + [x]) <= Score(balance, sim, c, selected)
  {
    assert (selected + [x])[..|selected|] == selected;
    assert MaxSim(sim, c, selected) <= MaxSim(sim, c, selected + [x]);
    assert (1.0 - balance) * MaxSim(sim, c, selected) <= (1.0 - balance) * MaxSim(sim, c, selected + [x]);
  }

  /** The score of a candidate against what is selected so far. */
  function Scoring(balance: real, sim: Similarity): Scorer {
    (c, selected) => Score(balance, sim, c, selected)
  }

  /** Every pick has the score it had when picked, and none that was still there had
    * a greater one. */
  ghost predicate Greedy(f: Scorer, selected: seq<MmrCand>, scores: seq<real>, rest: seq<MmrCand>) {
    && |scores| == |selected|
    && (forall n :: 0 <= n < |selected| ==> scores[n] == f(selected[n], selected[..n]))
    && (forall n, m :: 0 <= n < m < |selected| ==> f(selected[m], selected[..n]) <= scores[n])
    && (forall n, c :: 0 <= n < |selected| && c in rest ==> f(c, selected[..n]) <= scores[n])
  }

  /** The first candidate of greatest score. */
  method Best(balance: real, sim: Similarity, cands: seq<MmrCand>, selected: seq<MmrCand>)
    returns (best: nat, score: real)
    requires cands != []
    ensures best < |cands| && score == Score(balance, sim, cands[best], selected)
    ensures forall c :: c in cands ==> Score(balance, sim, c, selected) <= score
    ensures forall i :: 0 <= i < best ==> Score(balance, sim, cands[i], selected) < score
  {
    best := 0;
    var bestMmr: Option<real> := None;
    for i := 0 to |cands|
      invariant i == 0 <==> bestMmr.None?
      invariant best < |cands| && (i > 0 ==> best < i && bestMmr.value == Score(balance, sim, cands[best], selected))
      invariant forall k :: 0 <= k < i ==> Score(balance, sim, cands[k], selected) <= bestMmr.value
      invariant i > 0 ==> forall k :: 0 <= k < best ==> Score(balance, sim, cands[k], selected) < bestMmr.value
    {
      var mmr := Score(balance, sim, cands[i], selected);
      if bestMmr.None? || mmr > bestMmr.value {
        bestMmr := Some(mmr);
        best := i;
      }
    }
    score := bestMmr.value;
  }

  lemma SwapRemoveMembers(s: seq<MmrCand>, i: nat)
    requires i < |s|
    ensures forall c :: c in SwapRemove(s, i) ==> c in s
  {
    var r := SwapRemove(s, i);
    forall c | c in r ensures c in s {
      var k :| 0 <= k < |r| && r[k] == c;
      assert c == s[k] || c == s[|s| - 1];
    }
  }

  lemma GreedyStep(
      f: Scorer, selected: seq<MmrCand>, scores: seq<real>, cands: seq<MmrCand>, x: MmrCand, rest: seq<MmrCand>)
    requires Greedy(f, selected, scores, cands) && x in cands
    requires forall c :: c in rest ==> c in cands
    requires forall c :: c in cands ==> f(c, selected) <= f(x, selected)
    ensures Greedy(f, selected + [x], scores + [f(x, selected)], rest)
  {
    var n := |selected|;
    assert forall m :: 0 <= m <= n ==> (selected + [x])[..m] == selected[..m];
    assert selected[..n] == selected;
  }

  /** The selection loop of the search. For every similarity and every weight it takes
    * min(topK, |pool|) candidates, forms with the rest a permutation of the pool,
    * picks greedily, and reports scores that never rise. */
  method Select(pool: seq<MmrCand>, topK: nat, weight: real, sim: Similarity)
    returns (selected: seq<MmrCand>, scores: seq<real>, rest: seq<MmrCand>)
    ensures |selected| == if topK <= |pool| then topK else |pool|
    ensures multiset(selected) + multiset(rest) == multiset(pool)
    ensures Greedy(Scoring(Clamp(weight), sim), selected, scores, rest)
    ensures forall n, m :: 0 <= n < m < |scores| ==> scores[m] <= scores[n]
  {
    var balance := Clamp(weight);
    var cands := pool;
    selected, scores := [], [];
    while |selected| < topK && cands != []
      invariant |selected| + |cands| == |pool| && |selected| <= topK
      invariant multiset(selected) + multiset(cands) == multiset(pool)
      invariant Greedy(Scoring(balance, sim), selected, scores, cands)
      decreases |cands|
    {
      var best, score := Best(balance, sim, cands, selected);
      SwapRemoveMembers(cands, best);
      GreedyStep(Scoring(balance, sim), selected, scores, cands, cands[best], SwapRemove(cands, best));
      SwapRemoveMoves(cands, best);
      selected, scores, cands := selected + [cands[best]], scores + [score], SwapRemove(cands, best);
    }
    rest := cands;
    ScoresNeverRise(balance, sim, selected, scores, rest);
  }

  lemma ScoresNeverRise(
      balance: real, sim: Similarity, selected: seq<MmrCand>, scores: seq<real>, rest: seq<MmrCand>)
    requires 0.0 <= balance <= 1.0 && Greedy(Scoring(balance, sim), selected, scores, rest)
    ensures forall n, m :: 0 <= n < m < |scores| ==> scores[m] <= scores[n]
  {
    forall n, m | 0 <= n < m < |scores| ensures scores[m] <= scores[n] {
      FallsBetween(balance, sim, selected[m], selected, n, m);
      assert Scoring(balance, sim)(selected[m], selected[..n]) <= scores[n];
    }
  }

  lemma {:induction false} FallsBetween(
      balance: real, sim: Similarity, c: MmrCand, selected: seq<MmrCand>, n: nat, m: nat)
    requires 0.0 <= balance <= 1.0 && n <= m <= |selected|
    ensures Score(balance, sim, c, selected[..m]) <= Score(balance, sim, c, selected[..n])
  {
    if n < m {
      FallsBetween(balance, sim, c, selected, n, m - 1);
      ScoreFalls(balance, sim, c, selected[..m - 1], selected[m - 1]);
      assert selected[..m] == selected[..m - 1] + [selected[m - 1]];
    }
  }

  /** At weight one the picks are the nearest candidates, nearest first. */
  lemma PureRelevanceIsNearest(
      sim: Similarity, selected: seq<MmrCand>, scores: seq<real>, rest: seq<MmrCand>)
    requires Greedy(Scoring(1.0, sim), selected, scores, rest)
    ensures forall n, m :: 0 <= n < m < |selected| ==> selected[n].dist <= selected[m].dist
    ensures forall n, c :: 0 <= n < |selected| && c in rest ==> selected[n].dist <= c.dist
  {
    assert forall c, s :: Scoring(1.0, sim)(c, s) == -c.dist;
  }

  /** At weight zero nothing selected is liked: the first pick is free, and each later
    * one is a candidate least like those before it. */
  lemma PureDiversityIsLeastAlike(
      sim: Similarity, selected: seq<MmrCand>, scores: seq<real>, rest: seq<MmrCand>)
    requires Greedy(Scoring(0.0, sim), selected, scores, rest)
    ensures forall n, c :: 0 <= n < |selected| && c in rest ==>
              MaxSim(sim, selected[n], selected[..n]) <= MaxSim(sim, c, selected[..n])
  {
    assert forall c, s :: Scoring(0.0, sim)(c, s) == -MaxSim(sim, c, s);
  }
}
