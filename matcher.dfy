/** The DoF matcher: when the external model answers with a new set of four
    DoF vectors, find the assignment of the currently chosen (old) DoF vectors
    to new candidates that moves them least, and resolve the sign ambiguity of
    the new vectors. */
module DofMatcher {
  import opened Vectors
  import opened DofRotation

  /** Best distance between an old chosen vector and a new candidate, and the
      sign (+1 or -1) applied to the candidate that achieves it. */
  datatype Match = Match(dist: real, sign: real)

  /** How the signs of the new DoF vectors are chosen (the DoF sign selector). */
  datatype SignPolicy = KeepOrientation | LargestComponent | NoSignPolicy

  /** Compare `o` with `n` and with `-n`; ties go to the negated candidate. */
  function BestSign(o: Vec, n: Vec): (m: Match)
    ensures m.sign == 1.0 || m.sign == -1.0
    ensures m.dist == SqDist(o, n, m.sign)
    ensures m.dist <= SqDist(o, n, 1.0) && m.dist <= SqDist(o, n, -1.0)
    ensures m.sign == 1.0 <==> SqDist(o, n, 1.0) < SqDist(o, n, -1.0)
  {
    var plus := SqDist(o, n, 1.0);
    var minus := SqDist(o, n, -1.0);
    if minus > plus then Match(plus, 1.0) else Match(minus, -1.0)
  }

  /** The DoF vectors currently bound to the input axes, in axis order. */
  function ChosenVectors(dofs: DofSet, chosen: seq<nat>): (vs: seq<Vec>)
    requires forall i :: 0 <= i < |chosen| ==> chosen[i] < NUM_DOFS
    ensures |vs| == |chosen|
    ensures forall i :: 0 <= i < |chosen| ==> vs[i] == dofs[chosen[i]]
  {
    seq(|chosen|, i requires 0 <= i < |chosen| => dofs[chosen[i]])
  }

  /** Every row has one entry per new candidate. */
  predicate WellFormed(table: seq<seq<Match>>)
  {
    forall i :: 0 <= i < |table| ==> |table[i]| == NUM_DOFS
  }

  /** Row i, column j: the best match of old chosen vector i against new candidate j. */
  function DistanceTable(olds: seq<Vec>, news: DofSet): (t: seq<seq<Match>>)
    ensures |t| == |olds| && WellFormed(t)
    ensures forall i, j :: 0 <= i < |olds| && 0 <= j < NUM_DOFS ==> t[i][j] == BestSign(olds[i], news[j])
  {
    seq(|olds|, i requires 0 <= i < |olds| =>
      seq(4, j requires 0 <= j < 4 => BestSign(olds[i], news[j])))
  }

  /** Each entry of the table is the nearer of the candidate and its
      negation to the old vector: its sign is ±1, its distance is the distance
      at that sign and no larger than either, and the sign is +1 exactly when
      the candidate itself is strictly nearer. */
  lemma DistanceTableEntry(olds: seq<Vec>, news: DofSet, i: nat, j: nat)
    requires i < |olds| && j < NUM_DOFS
    ensures var m := DistanceTable(olds, news)[i][j];
      && (m.sign == 1.0 || m.sign == -1.0)
      && m.dist == SqDist(olds[i], news[j], m.sign)
      && m.dist <= SqDist(olds[i], news[j], 1.0) && m.dist <= SqDist(olds[i], news[j], -1.0)
      && (m.sign == 1.0 <==> SqDist(olds[i], news[j], 1.0) < SqDist(olds[i], news[j], -1.0))
  {
  }

  /** `p` binds `n` axes to distinct candidate indices. */
  predicate IsAssignment(p: seq<nat>, n: nat)
  {
    |p| == n && DistinctInRange(p)
  }

  /** The k-th ordered pair of distinct indices, ordered by first index and
      then by second. */
  function OrderedPair(k: nat): (p: seq<nat>)
    requires k < 12
    ensures IsAssignment(p, 2)
  {
    var a, r := k / 3, k % 3;
    [a, if r < a then r else r + 1]
  }

  /** The enumeration order of candidate bindings: the four singletons for one
      axis, the twelve ordered pairs otherwise. */
  function Permutations(n: nat): (ps: seq<seq<nat>>)
    requires 1 <= n <= 2
    ensures forall k :: 0 <= k < |ps| ==> IsAssignment(ps[k], n)
  {
    if n == 1 then seq(4, i requires 0 <= i < 4 => [i])
    else seq(12, k requires 0 <= k < 12 => OrderedPair(k))
  }

  /** The enumeration is the source's literal list of bindings, in its order. */
  lemma PermutationsListed()
    ensures Permutations(1) == [[0], [1], [2], [3]]
    ensures Permutations(2) == [[0, 1], [0, 2], [0, 3], [1, 0], [1, 2], [1, 3],
                                [2, 0], [2, 1], [2, 3], [3, 0], [3, 1], [3, 2]]
  {
  }

  /** The enumeration lists exactly the valid bindings of one or two axes. */
  lemma PermutationsExhaustive(n: nat)
    requires 1 <= n <= 2
    ensures forall p :: p in Permutations(n) <==> IsAssignment(p, n)
  {
    forall p | IsAssignment(p, n)
      ensures p in Permutations(n)
    {
      var k := PermIndex(p, n);
    }
    forall p | p in Permutations(n)
      ensures IsAssignment(p, n)
    {
      var k :| 0 <= k < |Permutations(n)| && Permutations(n)[k] == p;
    }
  }

  /** Where a valid binding stands in the enumeration. */
  function PermIndex(p: seq<nat>, n: nat): (k: nat)
    requires 1 <= n <= 2 && IsAssignment(p, n)
    ensures k < |Permutations(n)| && Permutations(n)[k] == p
  {
    if n == 1 then
      assert p == [p[0]];
      p[0]
    else
      var k := 3 * p[0] + (if p[1] < p[0] then p[1] else p[1] - 1);
      assert k / 3 == p[0] && k % 3 == (if p[1] < p[0] then p[1] else p[1] - 1);
      assert p == [p[0], p[1]];
      k
  }

  /** The summed best distance of a binding (the `perm.reduce` over slots). */
  function Score(table: seq<seq<Match>>, p: seq<nat>): (r: real)
    requires |p| <= |table| && WellFormed(table)
    requires forall i :: 0 <= i < |p| ==> p[i] < NUM_DOFS
  {
    if |p| == 0 then 0.0
    else Score(table, p[..|p| - 1]) + table[|p| - 1][p[|p| - 1]].dist
  }

  /** The summed distance of every enumerated binding, in enumeration order. */
  function Scores(table: seq<seq<Match>>, n: nat): (s: seq<real>)
    requires 1 <= n <= 2 && |table| == n && WellFormed(table)
    ensures |s| == |Permutations(n)|
  {
    var perms := Permutations(n);
    seq(|perms|, k requires 0 <= k < |perms| => Score(table, perms[k]))
  }

  /** The index kept by `reduce((r, v, i) => v < s[r] ? i : r, 0)`. */
  function FirstArgMin(s: seq<real>): (r: nat)
    requires |s| > 0
    ensures r < |s|
  {
    if |s| == 1 then 0
    else
      var r := FirstArgMin(s[..|s| - 1]);
      if s[|s| - 1] < s[r] then |s| - 1 else r
  }

  /** The reduce keeps the first position holding the minimum. */
  lemma {:induction false} FirstArgMinIsFirstMinimum(s: seq<real>)
    requires |s| > 0
    ensures var r := FirstArgMin(s);
      && (forall j :: 0 <= j < |s| ==> s[r] <= s[j])
      && (forall j :: 0 <= j < r ==> s[r] < s[j])
  {
    if |s| > 1 {
      var t := s[..|s| - 1];
      FirstArgMinIsFirstMinimum(t);
      assert forall j :: 0 <= j < |t| ==> t[j] == s[j];
    }
  }

  /** Position, in enumeration order, of the binding that is chosen. */
  function BestIndex(table: seq<seq<Match>>, n: nat): nat
    requires 1 <= n <= 2 && |table| == n && WellFormed(table)
  {
    FirstArgMin(Scores(table, n))
  }

  /** The binding that moves the chosen DoFs least. */
  function BestPermutation(table: seq<seq<Match>>, n: nat): (p: seq<nat>)
    requires 1 <= n <= 2 && |table| == n && WellFormed(table)
    ensures IsAssignment(p, n)
  {
    Permutations(n)[BestIndex(table, n)]
  }

  /** The selected binding scores no more than any valid binding, and every
      binding enumerated before it scores strictly more (ties go to the first
      one found). */
  lemma BestPermutationIsOptimal(table: seq<seq<Match>>, n: nat)
    requires 1 <= n <= 2 && |table| == n && WellFormed(table)
    ensures forall p :: IsAssignment(p, n) ==> Score(table, BestPermutation(table, n)) <= Score(table, p)
    ensures forall k :: 0 <= k < BestIndex(table, n) ==>
      Score(table, Permutations(n)[k]) > Score(table, BestPermutation(table, n))
  {
    var s := Scores(table, n);
    var best := BestIndex(table, n);
    FirstArgMinIsFirstMinimum(s);
    var bestScore := Score(table, BestPermutation(table, n));
    assert bestScore == s[best];
    forall p | IsAssignment(p, n)
      ensures bestScore <= Score(table, p)
    {
      var k := PermIndex(p, n);
      assert Score(table, p) == s[k];
    }
    forall k | 0 <= k < best
      ensures Score(table, Permutations(n)[k]) > bestScore
    {
      assert Score(table, Permutations(n)[k]) == s[k];
    }
  }

  /** The first position of `k` in `p`. */
  function IndexOf(p: seq<nat>, k: nat): (i: nat)
    requires k in p
    ensures i < |p| && p[i] == k
    ensures forall j :: 0 <= j < i ==> p[j] != k
  {
    if p[0] == k then 0 else 1 + IndexOf(p[1..], k)
  }

  /** The keepOrientation policy: the candidate at each selected index is
      multiplied by the sign recorded for its slot; the others are kept. */
  function Oriented(news: DofSet, perm: seq<nat>, table: seq<seq<Match>>): (r: DofSet)
    requires |perm| <= |table| && WellFormed(table) && DistinctInRange(perm)
  {
    seq(4, k requires 0 <= k < 4 =>
      if k in perm then Scale(news[k], table[IndexOf(perm, k)][k].sign) else news[k])
  }

  /** keepOrientation: each re-signed vector is no farther from the old vector
      of its slot than its negation would be, and the vectors at indices that
      were not selected are the new ones unchanged. */
  lemma KeepOrientationIsCloser(olds: seq<Vec>, news: DofSet, perm: seq<nat>)
    requires |perm| == |olds| && DistinctInRange(perm)
    ensures var r := Oriented(news, perm, DistanceTable(olds, news));
      && (forall i :: 0 <= i < |perm| ==>
            SqDist(olds[i], r[perm[i]], 1.0) <= SqDist(olds[i], r[perm[i]], -1.0))
      && (forall k :: 0 <= k < NUM_DOFS && k !in perm ==> r[k] == news[k])
  {
    var table := DistanceTable(olds, news);
    var r := Oriented(news, perm, table);
    forall i | 0 <= i < |perm|
      ensures SqDist(olds[i], r[perm[i]], 1.0) <= SqDist(olds[i], r[perm[i]], -1.0)
    {
      var k := perm[i];
      assert perm[i] in perm;
      assert IndexOf(perm, k) == i;
      var m := table[i][k];
      SqDistScaled(olds[i], news[k], m.sign);
      assert r[k] == Scale(news[k], m.sign);
    }
  }

  /** When the model returns each selected candidate equal to the old vector of
      its slot up to a global sign flip, keepOrientation restores the old
      vector exactly. */
  lemma SignFlipUndone(olds: seq<Vec>, news: DofSet, perm: seq<nat>)
    requires |perm| == |olds| && DistinctInRange(perm)
    requires forall i :: 0 <= i < |perm| ==>
      news[perm[i]] == olds[i] || news[perm[i]] == Scale(olds[i], -1.0)
    ensures forall i :: 0 <= i < |perm| ==>
      Oriented(news, perm, DistanceTable(olds, news))[perm[i]] == olds[i]
  {
    var table := DistanceTable(olds, news);
    forall i | 0 <= i < |perm|
      ensures Oriented(news, perm, table)[perm[i]] == olds[i]
    {
      var k := perm[i];
      assert perm[i] in perm;
      assert IndexOf(perm, k) == i;
      SignOfFlippedCopy(olds[i], news[k]);
    }
  }

  /** One slot of `SignFlipUndone`: the recorded sign turns a copy or a
      negated copy of `o` back into `o`. */
  lemma SignOfFlippedCopy(o: Vec, n: Vec)
    requires n == o || n == Scale(o, -1.0)
    ensures Scale(n, BestSign(o, n).sign) == o
  {
    var m := BestSign(o, n);
    SqDistNonNegative(o, n, 1.0);
    SqDistNonNegative(o, n, -1.0);
    if n == o {
      assert SqDist(o, n, 1.0) == 0.0;
      if m.sign == -1.0 {
        assert SqDist(o, o, -1.0) == 0.0;
        ZeroDistToNegation(o);
      }
    } else {
      assert SqDist(o, n, -1.0) == 0.0;
      assert Scale(n, -1.0) == o;
    }
  }

  /** Only the zero vector is as close to its negation as to itself. */
  lemma ZeroDistToNegation(o: Vec)
    requires SqDist(o, o, -1.0) == 0.0
    ensures Scale(o, -1.0) == o
  {
    SqZero(o[0] - -1.0 * o[0]);
    SqZero(o[1] - -1.0 * o[1]);
    SqZero(o[2] - -1.0 * o[2]);
    SqZero(o[3] - -1.0 * o[3]);
    assert forall i :: 0 <= i < 4 ==> o[i] == 0.0;
  }

  /** The index kept by `vec.reduce((r, v, i) => |v| > |vec[r]| ? i : r, 0)`:
      the first component of largest magnitude, i.e. the first minimum of the
      negated magnitudes. */
  function LargestIndex(v: Vec): (r: nat)
    ensures r < NUM_DOFS
    ensures forall j :: 0 <= j < NUM_DOFS ==> Abs(v[j]) <= Abs(v[r])
    ensures forall j :: 0 <= j < r ==> Abs(v[j]) < Abs(v[r])
  {
    var negated := seq(4, i requires 0 <= i < 4 => -Abs(v[i]));
    var r := FirstArgMin(negated);
    FirstArgMinIsFirstMinimum(negated);
    assert forall j :: 0 <= j < 4 ==> negated[j] == -Abs(v[j]);
    r
  }

  /** The largestComponent policy for one vector: multiply it by the sign of
      its first largest-magnitude component. */
  function Upright(v: Vec): (w: Vec)
  {
    Scale(v, Sign(v[LargestIndex(v)]))
  }

  /** largestComponent: the result lies on the same line as the input, its
      first largest-magnitude component sits at the same index and is never
      negative. */
  lemma UprightLargestNonNegative(v: Vec)
    ensures var w := Upright(v);
      && (w == v || w == Scale(v, -1.0))
      && LargestIndex(w) == LargestIndex(v)
      && w[LargestIndex(w)] >= 0.0
  {
    var w := Upright(v);
    var l := LargestIndex(v);
    if v[l] == 0.0 {
      assert forall j :: 0 <= j < 4 ==> v[j] == 0.0;
      assert w == v;
    } else if v[l] > 0.0 {
      assert w == v;
    } else {
      assert w == Scale(v, -1.0);
      var nw := seq(4, i requires 0 <= i < 4 => -Abs(w[i]));
      var nv := seq(4, i requires 0 <= i < 4 => -Abs(v[i]));
      assert nw == nv;
    }
  }

  /** Applying the largestComponent policy twice is the same as applying it once. */
  lemma UprightIdempotent(v: Vec)
    ensures Upright(Upright(v)) == Upright(v)
  {
    UprightLargestNonNegative(v);
    var w := Upright(v);
    var l := LargestIndex(w);
    if w[l] == 0.0 {
      assert forall j :: 0 <= j < 4 ==> w[j] == 0.0;
    }
    assert Upright(w) == w;
  }

  /** The DoF set stored after a model response, under each sign policy. */
  function ResolveSigns(news: DofSet, perm: seq<nat>, table: seq<seq<Match>>, policy: SignPolicy): (r: DofSet)
    requires |perm| <= |table| && WellFormed(table) && DistinctInRange(perm)
  {
    match policy
    case KeepOrientation => Oriented(news, perm, table)
    case LargestComponent => seq(4, i requires 0 <= i < 4 => Upright(news[i]))
    case NoSignPolicy => news
  }
}
