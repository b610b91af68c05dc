/** The edit distance behind taxonomy suggestions: a rolling-row loop, its recursive
  * definition, and what the number means. */
module EditDistance {

  function Min(a: nat, b: nat): nat { if a <= b then a else b }
  function Max(a: nat, b: nat): nat { if a >= b then a else b }

  /** The cheapest of a deletion, an insertion, and a match or substitution. */
  function Step(deletion: nat, insertion: nat, diagonal: nat, same: bool): (d: nat)
    ensures d <= deletion + 1 && d <= insertion + 1 && d <= diagonal + 1 && (same ==> d <= diagonal)
    ensures d == deletion + 1 || d == insertion + 1 || d == diagonal + if same then 0 else 1
  {
    Min(Min(deletion + 1, insertion + 1), diagonal + if same then 0 else 1)
  }

  /** The distance of the first `i` characters of `a` and the first `j` of `b`. */
  function Lev(a: string, b: string, i: nat, j: nat): nat
    requires i <= |a| && j <= |b|
    decreases i + j
  {
    if i == 0 then j
    else if j == 0 then i
    else Step(Lev(a, b, i - 1, j), Lev(a, b, i, j - 1), Lev(a, b, i - 1, j - 1), a[i - 1] == b[j - 1])
  }

  function Distance(a: string, b: string): nat { Lev(a, b, |a|, |b|) }

  // ---------------------------------------------------------------- the recursion

  lemma Unfold(a: string, b: string, i: nat, j: nat) returns (x: nat, y: nat, z: nat)
    requires 0 < i <= |a| && 0 < j <= |b|
    ensures x == Lev(a, b, i - 1, j) && y == Lev(a, b, i, j - 1) && z == Lev(a, b, i - 1, j - 1)
    ensures Lev(a, b, i, j) == Step(x, y, z, a[i - 1] == b[j - 1])
  {
    x, y, z := Lev(a, b, i - 1, j), Lev(a, b, i, j - 1), Lev(a, b, i - 1, j - 1);
  }

  lemma StepSymmetric(x: nat, y: nat, z: nat, same: bool)
    ensures Step(x, y, z, same) == Step(y, x, z, same)
  {
  }

  lemma {:induction false} Symmetric(a: string, b: string, i: nat, j: nat, d: nat, d': nat)
    requires i <= |a| && j <= |b| && d == Lev(a, b, i, j) && d' == Lev(b, a, j, i)
    ensures d == d'
    decreases i + j
  {
    if i > 0 && j > 0 {
      var x, y, z := Unfold(a, b, i, j);
      var x', y', z' := Unfold(b, a, j, i);
      Symmetric(a, b, i - 1, j, x, y');
      Symmetric(a, b, i, j - 1, y, x');
      Symmetric(a, b, i - 1, j - 1, z, z');
      StepSymmetric(x, y, z, a[i - 1] == b[j - 1]);
    }
  }

  lemma {:induction false} Bounds(a: string, b: string, i: nat, j: nat, d: nat)
    requires i <= |a| && j <= |b| && d == Lev(a, b, i, j)
    ensures i <= j + d && j <= i + d && d <= Max(i, j)
    decreases i + j
  {
    if i > 0 && j > 0 {
      Bounds(a, b, i - 1, j, Lev(a, b, i - 1, j));
      Bounds(a, b, i, j - 1, Lev(a, b, i, j - 1));
      Bounds(a, b, i - 1, j - 1, Lev(a, b, i - 1, j - 1));
    }
  }

  /** One character more or less changes the distance by at most one. */
  lemma {:induction false} Neighbours(a: string, b: string, i: nat, j: nat, d: nat, d': nat)
    requires i <= |a| && j < |b| && d == Lev(a, b, i, j) && d' == Lev(a, b, i, j + 1)
    ensures d <= d' + 1 && d' <= d + 1
    decreases i
  {
    if i > 0 { Neighbours(a, b, i - 1, j, Lev(a, b, i - 1, j), Lev(a, b, i - 1, j + 1)); }
  }

  /** On equal characters the diagonal is a cheapest step: the loop may skip the others. */
  lemma EqualCharacters(a: string, b: string, i: nat, j: nat, d: nat, diagonal: nat)
    requires i < |a| && j < |b| && a[i] == b[j]
    requires d == Lev(a, b, i + 1, j + 1) && diagonal == Lev(a, b, i, j)
    ensures d == diagonal
  {
    Neighbours(a, b, i, j, diagonal, Lev(a, b, i, j + 1));
    Neighbours(b, a, j, i, Lev(b, a, j, i), Lev(b, a, j, i + 1));
    Symmetric(a, b, i, j, diagonal, Lev(b, a, j, i));
    Symmetric(a, b, i + 1, j, Lev(a, b, i + 1, j), Lev(b, a, j, i + 1));
  }

  // ---------------------------------------------------------------- the loop

  ghost predicate Row(a: string, b: string, i: nat, row: seq<nat>, n: nat)
    requires i <= |a| && n <= |row| && n <= |b| + 1
  {
    forall k :: 0 <= k < n ==> row[k] == Lev(a, b, i, k)
  }

  /** What the loop stores after `row[..j + 1]`, below the finished row `above`. */
  function Cell(same: bool, above: seq<nat>, row: seq<nat>, j: nat): nat
    requires j + 1 < |above| && j < |row|
  {
    if same then above[j] else 1 + Min(Min(above[j], row[j]), above[j + 1])
  }

  lemma NextCell(a: string, b: string, i: nat, above: seq<nat>, row: seq<nat>, j: nat)
    requires i < |a| && j < |b| && |above| == |b| + 1 == |row|
    requires Row(a, b, i, above, |b| + 1) && Row(a, b, i + 1, row, j + 1)
    ensures Row(a, b, i + 1, row[j + 1 := Cell(a[i] == b[j], above, row, j)], j + 2)
  {
    var d := Lev(a, b, i + 1, j + 1);
    assert d == Step(above[j + 1], row[j], above[j], a[i] == b[j]);
    if a[i] == b[j] { EqualCharacters(a, b, i, j, d, above[j]); }
  }

  /** Two rows of the table, rolled. `early` is the exit on a row whose minimum
    * exceeds the longer length; it never fires. */
  method Levenshtein(a: string, b: string) returns (d: int)
    ensures d == Distance(a, b)
  {
    var maxlen: int := Max(|a|, |b|);
    if maxlen == 0 { return 0; }
    var prev := new nat[|b| + 1](k => k);
    var early := false;
    var i := 0;
    while i < |a| && !early
      invariant i <= |a| && !early
      invariant prev.Length == |b| + 1 && fresh(prev)
      invariant Row(a, b, i, prev[..], |b| + 1)
    {
      var cur := new nat[|b| + 1](k => 0);
      cur[0] := i + 1;
      var rowMin: nat := cur[0];
      for j := 0 to |b|
        invariant cur.Length == |b| + 1 && cur != prev
        invariant Row(a, b, i, prev[..], |b| + 1) && Row(a, b, i + 1, cur[..], j + 1)
        invariant rowMin <= i + 1
      {
        NextCell(a, b, i, prev[..], cur[..], j);
        ghost var next := cur[..][j + 1 := Cell(a[i] == b[j], prev[..], cur[..], j)];
        cur[j + 1] := if a[i] == b[j] then prev[j]
                      else 1 + Min(Min(prev[j], cur[j]), prev[j + 1]);
        assert cur[..] == next;
        rowMin := Min(rowMin, cur[j + 1]);
      }
      early := rowMin > maxlen;
      prev := cur;
      i := i + 1;
    }
    d := if early then maxlen + 1 else prev[|b|];
  }

  // ---------------------------------------------------------------- a metric

  lemma {:induction false} ZeroMeansEqual(a: string, b: string, i: nat, j: nat)
    requires i <= |a| && j <= |b|
    ensures Lev(a, b, i, j) == 0 <==> i == j && a[..i] == b[..j]
    decreases i + j
  {
    if i > 0 && j > 0 {
      ZeroMeansEqual(a, b, i - 1, j - 1);
      if i == j {
        assert a[..i] == a[..i - 1] + [a[i - 1]] && b[..j] == b[..j - 1] + [b[j - 1]];
        assert a[..i] == b[..j] ==> a[..i][..i - 1] == b[..j][..j - 1];
      }
    }
  }

  /** A distance is at most one more than with one character less on either side, and is
    * reached by one of the three steps. */
  lemma Choices(a: string, b: string, i: nat, j: nat, d: nat)
    requires 0 < i <= |a| && 0 < j <= |b| && d == Lev(a, b, i, j)
    ensures d <= Lev(a, b, i - 1, j) + 1 && d <= Lev(a, b, i, j - 1) + 1
    ensures d <= Lev(a, b, i - 1, j - 1) + if a[i - 1] == b[j - 1] then 0 else 1
    ensures || d == Lev(a, b, i - 1, j) + 1
            || d == Lev(a, b, i, j - 1) + 1
            || d == Lev(a, b, i - 1, j - 1) + if a[i - 1] == b[j - 1] then 0 else 1
  {
  }

  lemma {:induction false} Triangle(a: string, b: string, c: string, i: nat, j: nat, k: nat, ab: nat, bc: nat, ac: nat)
    requires i <= |a| && j <= |b| && k <= |c|
    requires ab == Lev(a, b, i, j) && bc == Lev(b, c, j, k) && ac == Lev(a, c, i, k)
    ensures ac <= ab + bc
    decreases i + j + k, 1
  {
    if i == 0 || j == 0 || k == 0 {
      Bounds(a, b, i, j, ab);
      Bounds(b, c, j, k, bc);
      Bounds(a, c, i, k, ac);
    } else {
      Choices(a, b, i, j, ab);
      Choices(b, c, j, k, bc);
      Choices(a, c, i, k, ac);
      TriangleStep(a, b, c, i, j, k, ab, bc, ac);
    }
  }

  lemma {:induction false} TriangleStep(a: string, b: string, c: string, i: nat, j: nat, k: nat, ab: nat, bc: nat, ac: nat)
    requires 0 < i <= |a| && 0 < j <= |b| && 0 < k <= |c|
    requires || ab == Lev(a, b, i - 1, j) + 1
             || ab == Lev(a, b, i, j - 1) + 1
             || ab == Lev(a, b, i - 1, j - 1) + if a[i - 1] == b[j - 1] then 0 else 1
    requires || bc == Lev(b, c, j - 1, k) + 1
             || bc == Lev(b, c, j, k - 1) + 1
             || bc == Lev(b, c, j - 1, k - 1) + if b[j - 1] == c[k - 1] then 0 else 1
    requires ac <= Lev(a, c, i - 1, k) + 1 && ac <= Lev(a, c, i, k - 1) + 1
    requires ac <= Lev(a, c, i - 1, k - 1) + if a[i - 1] == c[k - 1] then 0 else 1
    requires ab == Lev(a, b, i, j) && bc == Lev(b, c, j, k) && ac == Lev(a, c, i, k)
    ensures ac <= ab + bc
    decreases i + j + k, 0
  {
    if ab == Lev(a, b, i - 1, j) + 1 {
      Triangle(a, b, c, i - 1, j, k, ab - 1, bc, Lev(a, c, i - 1, k));
    } else if bc == Lev(b, c, j, k - 1) + 1 {
      Triangle(a, b, c, i, j, k - 1, ab, bc - 1, Lev(a, c, i, k - 1));
    } else {
      var i' := if ab == Lev(a, b, i, j - 1) + 1 then i else i - 1;
      var k' := if bc == Lev(b, c, j - 1, k) + 1 then k else k - 1;
      Triangle(a, b, c, i', j - 1, k', Lev(a, b, i', j - 1), Lev(b, c, j - 1, k'), Lev(a, c, i', k'));
    }
  }

  /** The distance is a metric, at least the difference of the lengths and at most
    * the longer one. */
  lemma DistanceIsAMetric(a: string, b: string, c: string)
    ensures Distance(a, b) == 0 <==> a == b
    ensures Distance(a, b) == Distance(b, a)
    ensures Distance(a, c) <= Distance(a, b) + Distance(b, c)
    ensures |a| <= |b| + Distance(a, b) && Distance(a, b) <= Max(|a|, |b|)
  {
    ZeroMeansEqual(a, b, |a|, |b|);
    assert a[..|a|] == a && b[..|b|] == b;
    Symmetric(a, b, |a|, |b|, Distance(a, b), Distance(b, a));
    Triangle(a, b, c, |a|, |b|, |c|, Distance(a, b), Distance(b, c), Distance(a, c));
    Bounds(a, b, |a|, |b|, Distance(a, b));
  }

  // ---------------------------------------------------------------- edits

  ghost predicate Inserts(s: string, t: string, k: nat) {
    k <= |s| && |t| == |s| + 1 && t[..k] == s[..k] && t[k + 1..] == s[k..]
  }

  ghost predicate Substitutes(s: string, t: string, k: nat) {
    k < |s| && |t| == |s| && t[..k] == s[..k] && t[k + 1..] == s[k + 1..]
  }

  /** `t` is `s` with one character inserted, deleted or replaced. */
  ghost predicate Edit(s: string, t: string) {
    exists k: nat :: Inserts(s, t, k) || Inserts(t, s, k) || Substitutes(s, t, k)
  }

  ghost predicate Edits(path: seq<string>) {
    forall n :: 0 <= n < |path| - 1 ==> Edit(path[n], path[n + 1])
  }

  lemma {:induction false} SharedSuffix(s: string, t: string, i: nat, j: nat)
    requires i <= |s| && j <= |t| && s[i..] == t[j..]
    ensures Distance(s, t) <= Lev(s, t, i, j)
    decreases |s| - i
  {
    assert |s| - i == |t| - j;
    if i < |s| {
      assert s[i] == s[i..][0] == t[j..][0] == t[j];
      assert s[i + 1..] == s[i..][1..] && t[j + 1..] == t[j..][1..];
      SharedSuffix(s, t, i + 1, j + 1);
    }
  }

  lemma EditCostsOne(s: string, t: string)
    requires Edit(s, t)
    ensures Distance(s, t) <= 1
  {
    var k: nat :| Inserts(s, t, k) || Inserts(t, s, k) || Substitutes(s, t, k);
    ZeroMeansEqual(s, t, k, k);
    if Inserts(s, t, k) {
      SharedSuffix(s, t, k, k + 1);
    } else if Inserts(t, s, k) {
      SharedSuffix(s, t, k + 1, k);
    } else {
      SharedSuffix(s, t, k + 1, k + 1);
    }
  }

  lemma {:induction false} EditsCostAtLeast(path: seq<string>)
    requires path != [] && Edits(path)
    ensures Distance(path[0], path[|path| - 1]) <= |path| - 1
    decreases |path|
  {
    if |path| == 1 {
      DistanceIsAMetric(path[0], path[0], path[0]);
    } else {
      EditsCostAtLeast(path[1..]);
      EditCostsOne(path[0], path[1]);
      DistanceIsAMetric(path[0], path[1], path[|path| - 1]);
    }
  }

  ghost predicate Links(path: seq<string>, s: string, t: string, n: nat) {
    |path| == n + 1 && path[0] == s && path[n] == t && Edits(path)
  }

  lemma Extend(path: seq<string>, s: string, t: string, u: string, n: nat)
    requires Links(path, s, t, n) && Edit(t, u)
    ensures Links(path + [u], s, u, n + 1)
  {
  }

  lemma Prepend(path: seq<string>, s: string, t: string, u: string, n: nat)
    requires Links(path, s, t, n) && Edit(u, s)
    ensures Links([u] + path, u, t, n + 1)
  {
  }

  lemma AppendToEach(path: seq<string>, s: string, t: string, n: nat, c: char) returns (longer: seq<string>)
    requires Links(path, s, t, n)
    ensures Links(longer, s + [c], t + [c], n)
  {
    longer := seq(|path|, m requires 0 <= m < |path| => path[m] + [c]);
    forall m | 0 <= m < n ensures Edit(longer[m], longer[m + 1]) {
      assert Edit(path[m], path[m + 1]);
      EditAppended(path[m], path[m + 1], c);
    }
  }

  lemma InsertsAppended(s: string, t: string, k: nat, c: char)
    requires Inserts(s, t, k)
    ensures Inserts(s + [c], t + [c], k)
  {
    assert (s + [c])[..k] == s[..k] && (s + [c])[k..] == s[k..] + [c];
    assert (t + [c])[..k] == t[..k] && (t + [c])[k + 1..] == t[k + 1..] + [c];
  }

  lemma SubstitutesAppended(s: string, t: string, k: nat, c: char)
    requires Substitutes(s, t, k)
    ensures Substitutes(s + [c], t + [c], k)
  {
    assert (s + [c])[..k] == s[..k] && (s + [c])[k + 1..] == s[k + 1..] + [c];
    assert (t + [c])[..k] == t[..k] && (t + [c])[k + 1..] == t[k + 1..] + [c];
  }

  lemma EditAppended(s: string, t: string, c: char)
    requires Edit(s, t)
    ensures Edit(s + [c], t + [c])
  {
    var k: nat :| Inserts(s, t, k) || Inserts(t, s, k) || Substitutes(s, t, k);
    if Inserts(s, t, k) {
      InsertsAppended(s, t, k, c);
    } else if Inserts(t, s, k) {
      InsertsAppended(t, s, k, c);
    } else {
      SubstitutesAppended(s, t, k, c);
    }
  }

  lemma DropLast(s: string, c: char)
    ensures Edit(s + [c], s) && Edit(s, s + [c])
  {
    assert Inserts(s, s + [c], |s|);
  }

  /** Edits that turn the first `i` characters of `a` into the first `j` of `b`. */
  lemma {:induction false} CheapestPath(a: string, b: string, i: nat, j: nat) returns (path: seq<string>)
    requires i <= |a| && j <= |b|
    ensures Links(path, a[..i], b[..j], Lev(a, b, i, j))
    decreases i + j
  {
    var d := Lev(a, b, i, j);
    if i > 0 { assert a[..i] == a[..i - 1] + [a[i - 1]]; DropLast(a[..i - 1], a[i - 1]); }
    if j > 0 { assert b[..j] == b[..j - 1] + [b[j - 1]]; DropLast(b[..j - 1], b[j - 1]); }
    if i == 0 && j == 0 {
      path := [a[..0]];
    } else if j == 0 || (i > 0 && d == Lev(a, b, i - 1, j) + 1) {
      path := CheapestPath(a, b, i - 1, j);
      Prepend(path, a[..i - 1], b[..j], a[..i], Lev(a, b, i - 1, j));
      path := [a[..i]] + path;
    } else if i == 0 || d == Lev(a, b, i, j - 1) + 1 {
      path := CheapestPath(a, b, i, j - 1);
      Extend(path, a[..i], b[..j - 1], b[..j], Lev(a, b, i, j - 1));
      path := path + [b[..j]];
    } else {
      path := CheapestPath(a, b, i - 1, j - 1);
      path := AppendToEach(path, a[..i - 1], b[..j - 1], Lev(a, b, i - 1, j - 1), a[i - 1]);
      if a[i - 1] != b[j - 1] {
        var last := b[..j - 1] + [a[i - 1]];
        assert Substitutes(last, b[..j], j - 1);
        Extend(path, a[..i], last, b[..j], Lev(a, b, i - 1, j - 1));
        path := path + [b[..j]];
      }
    }
  }

  /** The distance is the least number of single-character edits. */
  lemma DistanceIsLeastEdits(a: string, b: string)
    ensures exists path :: Links(path, a, b, Distance(a, b))
    ensures forall path, n: nat :: Links(path, a, b, n) ==> Distance(a, b) <= n
  {
    var path := CheapestPath(a, b, |a|, |b|);
    assert a[..|a|] == a && b[..|b|] == b;
    forall p, n: nat | Links(p, a, b, n) ensures Distance(a, b) <= n {
      EditsCostAtLeast(p);
    }
  }

  // ---------------------------------------------------------------- similarity

  function Trigrams(s: string): (t: seq<string>)
    ensures |t| == if |s| < 3 then 0 else |s| - 2
    ensures forall n :: 0 <= n < |t| ==> t[n] == s[n..n + 3]
  {
    if |s| < 3 then [] else seq(|s| - 2, n requires 0 <= n < |s| - 2 => s[n..n + 3])
  }

  /** How many of `xs` occur in `ys`, repeats in `xs` included. */
  function Overlap(xs: seq<string>, ys: seq<string>): (n: nat)
    ensures n <= |xs|
  {
    if xs == [] then 0 else (if xs[0] in ys then 1 else 0) + Overlap(xs[1..], ys)
  }

  function ScaledOverlap(overlap: nat, total: nat): real {
    if total == 0 then 0.0 else 2.0 * overlap as real / total as real * 0.7
  }

  function TrigramTerm(a: string, b: string): real {
    ScaledOverlap(Overlap(Trigrams(a), Trigrams(b)), |Trigrams(a)| + |Trigrams(b)|)
  }

  function ScaledTerm(dist: nat, maxlen: nat): real {
    if maxlen == 0 then 0.0 else (1.0 - dist as real / maxlen as real) * 0.3
  }

  function LevenshteinTerm(a: string, b: string): real { ScaledTerm(Distance(a, b), Max(|a|, |b|)) }

  function Similarity(a: string, b: string): real { TrigramTerm(a, b) + LevenshteinTerm(a, b) }

  lemma RatioBounds(n: nat, d: nat)
    requires 0 < d && n <= d
    ensures 0.0 <= n as real / d as real <= 1.0
  {
  }

  /** The Levenshtein term stays in [0, 0.3], reaches 0.3 exactly on equal non-empty
    * strings, and is symmetric. */
  lemma LevenshteinTermRange(a: string, b: string)
    ensures 0.0 <= LevenshteinTerm(a, b) <= 0.3
    ensures LevenshteinTerm(a, b) == 0.3 <==> a == b && a != []
    ensures LevenshteinTerm(a, b) == LevenshteinTerm(b, a)
  {
    DistanceIsAMetric(a, b, a);
    var m := Max(|a|, |b|);
    if m > 0 {
      RatioBounds(Distance(a, b), m);
      if Distance(a, b) > 0 { assert Distance(a, b) as real / m as real > 0.0; }
    }
  }

  lemma RepeatsOverlap(x: string)
    ensures Overlap([x, x], [x]) == 2 && Overlap([x], [x, x]) == 1
  {
    assert [x, x][1..] == [x] && [x][1..] == [];
    assert Overlap([x], [x]) == 1;
  }

  lemma OneEdit(s: string, t: string)
    requires Edit(s, t) && s != t
    ensures Distance(s, t) == 1
  {
    EditCostsOne(s, t);
    ZeroMeansEqual(s, t, |s|, |t|);
    assert s[..|s|] == s && t[..|t|] == t;
  }

  lemma Thirds()
    ensures ScaledOverlap(2, 3) > 0.9 && ScaledOverlap(1, 3) < 0.5
  {
    var two, one := 4.0 / 3.0, 2.0 / 3.0;
    assert ScaledOverlap(2, 3) == two * 0.7;
    assert ScaledOverlap(1, 3) == one * 0.7;
  }

  lemma RepeatedTrigram(s: string, t: string, x: string)
    requires Trigrams(s) == [x, x] && Trigrams(t) == [x]
    ensures TrigramTerm(s, t) > 0.9 && TrigramTerm(t, s) < 0.5
  {
    RepeatsOverlap(x);
    Thirds();
    TermOf(s, t, 2, 3);
    TermOf(t, s, 1, 3);
  }

  lemma TermOf(a: string, b: string, overlap: nat, total: nat)
    requires Overlap(Trigrams(a), Trigrams(b)) == overlap && |Trigrams(a)| + |Trigrams(b)| == total
    ensures TrigramTerm(a, b) == ScaledOverlap(overlap, total)
  {
  }

  lemma LopsidedPair(s: string, t: string, x: string)
    requires Inserts(t, s, 0) && Max(|s|, |t|) == 4
    requires Trigrams(s) == [x, x] && Trigrams(t) == [x]
    ensures Similarity(s, t) > 1.0 > Similarity(t, s)
  {
    RepeatedTrigram(s, t, x);
    OneEdit(s, t);
    OneEdit(t, s);
    assert ScaledTerm(1, 4) == 0.225;
  }

  ghost predicate NoRepeats(t: seq<string>) { forall i, j :: 0 <= i < j < |t| ==> t[i] != t[j] }

  ghost function Members(t: seq<string>): set<string> { set x | x in t }

  lemma {:induction false} MembersCount(t: seq<string>)
    ensures |Members(t)| <= |t|
    ensures NoRepeats(t) ==> |Members(t)| == |t|
  {
    if t != [] {
      MembersCount(t[1..]);
      assert Members(t) == {t[0]} + Members(t[1..]);
    }
  }

  /** Without repeats on the left, the overlap counts the trigrams in common. */
  lemma {:induction false} OverlapCounts(xs: seq<string>, ys: seq<string>)
    requires NoRepeats(xs)
    ensures Overlap(xs, ys) == |Members(xs) * Members(ys)|
  {
    if xs == [] {
      assert Members(xs) * Members(ys) == {};
    } else {
      OverlapCounts(xs[1..], ys);
      var rest := Members(xs[1..]) * Members(ys);
      assert xs[0] !in rest;
      assert Members(xs) * Members(ys) == if xs[0] in ys then {xs[0]} + rest else rest;
    }
  }

  lemma Fewer(small: set<string>, big: set<string>)
    requires small <= big
    ensures |small| <= |big|
  {
    assert big == small + (big - small);
  }

  lemma OverlapIsSmall(xs: seq<string>, ys: seq<string>)
    requires NoRepeats(xs)
    ensures Overlap(xs, ys) <= |ys|
  {
    OverlapCounts(xs, ys);
    Fewer(Members(xs) * Members(ys), Members(ys));
    MembersCount(ys);
  }

  lemma OverlapIsSymmetric(xs: seq<string>, ys: seq<string>)
    requires NoRepeats(xs) && NoRepeats(ys)
    ensures Overlap(xs, ys) == Overlap(ys, xs)
  {
    OverlapCounts(xs, ys);
    OverlapCounts(ys, xs);
    assert Members(xs) * Members(ys) == Members(ys) * Members(xs);
  }

  lemma ScaleFacts(n: nat, m: nat, total: nat)
    requires total > 0
    ensures ScaledOverlap(n, total) >= 0.0
    ensures ScaledOverlap(n, total) <= 0.7 <==> 2 * n <= total
    ensures ScaledOverlap(n, total) == ScaledOverlap(m, total) <==> n == m
  {
    var d, p, q := total as real, 2.0 * n as real / total as real, 2.0 * m as real / total as real;
    assert p * d == 2.0 * n as real && q * d == 2.0 * m as real;
    assert ScaledOverlap(n, total) == p * 0.7 && ScaledOverlap(m, total) == q * 0.7;
    Quotient(p, d, 2.0 * n as real);
    if n != m { assert p * d != q * d; }
  }

  lemma Quotient(p: real, d: real, n: real)
    requires d > 0.0 && p * d == n
    ensures p <= 1.0 <==> n <= d
    ensures n >= 0.0 ==> p >= 0.0
  {
    assert n - d == (p - 1.0) * d;
  }

  /** Similarity is symmetric exactly on pairs with as many trigrams of the left in the
    * right as of the right in the left, so whenever neither string repeats a trigram. */
  lemma SimilarityIsSymmetricIff(a: string, b: string)
    ensures Similarity(a, b) == Similarity(b, a) <==>
              Overlap(Trigrams(a), Trigrams(b)) == Overlap(Trigrams(b), Trigrams(a))
    ensures NoRepeats(Trigrams(a)) && NoRepeats(Trigrams(b)) ==> Similarity(a, b) == Similarity(b, a)
  {
    var ta, tb := Trigrams(a), Trigrams(b);
    LevenshteinTermRange(a, b);
    if |ta| + |tb| > 0 {
      ScaleFacts(Overlap(ta, tb), Overlap(tb, ta), |ta| + |tb|);
    }
    if NoRepeats(ta) && NoRepeats(tb) { OverlapIsSymmetric(ta, tb); }
  }

  /** The trigram term is within its weight of 0.7 exactly if the overlap is at most half
    * the number of trigrams, so whenever the left string repeats none; similarity is then
    * in [0, 1], whatever the right string repeats. */
  lemma SimilarityIsBoundedIf(a: string, b: string)
    ensures TrigramTerm(a, b) >= 0.0
    ensures TrigramTerm(a, b) <= 0.7 <==> 2 * Overlap(Trigrams(a), Trigrams(b)) <= |Trigrams(a)| + |Trigrams(b)|
    ensures TrigramTerm(a, b) <= 0.7 ==> 0.0 <= Similarity(a, b) <= 1.0
    ensures NoRepeats(Trigrams(a)) ==> TrigramTerm(a, b) <= 0.7
  {
    var ta, tb := Trigrams(a), Trigrams(b);
    LevenshteinTermRange(a, b);
    if |ta| + |tb| > 0 {
      ScaleFacts(Overlap(ta, tb), 0, |ta| + |tb|);
    }
    if NoRepeats(ta) { OverlapIsSmall(ta, tb); }
  }

  /** The trigram term counts repeats of its left argument only, so similarity is not
    * symmetric and may exceed one: "aaaa" and "aaa". */
  lemma SimilarityIsLopsided()
    ensures exists s, t :: Similarity(s, t) > 1.0 > Similarity(t, s)
  {
    var s, t, x := "aaaa", "aaa", "aaa";
    assert s[0..3] == x && s[1..4] == x && t[0..3] == x;
    LopsidedPair(s, t, x);
  }
}
