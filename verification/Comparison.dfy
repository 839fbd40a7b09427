/** Paired comparison of two sets of case scores: rows are matched by id, differences are averaged
    per independent root. */
module Comparison {
  import opened Wrappers

  type Id = nat
  type Root = nat

  /** A weight above 0 and at most 1, probabilities between 0 and 1. */
  predicate Probability(x: real) { 0.0 <= x <= 1.0 }

  datatype Score = Score(row: Id, root: Root, weight: real, actual: Option<bool>, predicted: Option<real>,
      edgeF1: Option<real>)
  {
    predicate Valid() {
      && 0.0 < weight <= 1.0
      && (predicted.Some? ==> Probability(predicted.value))
      && (edgeF1.Some? ==> Probability(edgeF1.value))
    }
  }

  datatype Metric = Brier | EdgeF1

  datatype Pair = Pair(weight: real, difference: real)
  {
    function Value(): real { weight * difference }

    predicate Proper() { weight > 0.0 && -1.0 <= difference <= 1.0 }
  }

  type Groups = map<Root, seq<Pair>>

  datatype Comparison = Comparison(differences: map<Root, real>, paired: nat, omitted: nat, coverage: Option<real>)

  const MAX_ROWS: nat := 100000

  function Table(rows: seq<Score>): map<Id, Score> {
    if rows == [] then map[] else Table(rows[..|rows| - 1])[rows[|rows| - 1].row := rows[|rows| - 1]]
  }

  function Square(x: real): real { x * x }

  function Truth(b: bool): real { if b then 1.0 else 0.0 }

  /** By how much the first row is better, if both rows are scored. */
  function Improvement(a: Score, b: Score, metric: Metric): Option<real> {
    match metric
    case Brier =>
      if a.actual.None? || a.predicted.None? || b.predicted.None? then None
      else Some(Square(b.predicted.value - Truth(a.actual.value)) - Square(a.predicted.value - Truth(a.actual.value)))
    case EdgeF1 =>
      if a.edgeF1.None? || b.edgeF1.None? then None else Some(a.edgeF1.value - b.edgeF1.value)
  }

  /** The two rows describe the same case. */
  predicate SameCase(a: Score, b: Score) {
    a.root == b.root && a.weight == b.weight && a.actual == b.actual
  }

  function Add(groups: Groups, root: Root, p: Pair): Groups {
    groups[root := (if root in groups then groups[root] else []) + [p]]
  }

  /** The matched rows, in the order of their ids, by root. */
  function Grouped(keys: seq<Id>, left: map<Id, Score>, right: map<Id, Score>, metric: Metric): Groups
    requires forall k | k in keys :: k in left && k in right
  {
    if keys == [] then map[]
    else
      var before, k := keys[..|keys| - 1], keys[|keys| - 1];
      var groups := Grouped(before, left, right, metric);
      match Improvement(left[k], right[k], metric)
      case None => groups
      case Some(d) => Add(groups, left[k].root, Pair(left[k].weight, d))
  }

  /** How many of the keys are scored on both sides. */
  function Scored(keys: seq<Id>, left: map<Id, Score>, right: map<Id, Score>, metric: Metric): nat
    requires forall k | k in keys :: k in left && k in right
  {
    if keys == [] then 0
    else
      var before, k := keys[..|keys| - 1], keys[|keys| - 1];
      Scored(before, left, right, metric) + if Improvement(left[k], right[k], metric).Some? then 1 else 0
  }

  function Weight(ps: seq<Pair>): real {
    if ps == [] then 0.0 else Weight(ps[..|ps| - 1]) + ps[|ps| - 1].weight
  }

  function Weighted(ps: seq<Pair>): real {
    if ps == [] then 0.0 else Weighted(ps[..|ps| - 1]) + ps[|ps| - 1].Value()
  }

  function Mean(ps: seq<Pair>): real
    requires Weight(ps) > 0.0
  {
    Weighted(ps) / Weight(ps)
  }

  predicate Proper(ps: seq<Pair>) {
    ps != [] && forall p | p in ps :: p.Proper()
  }

  lemma {:induction false} WeightIsPositive(ps: seq<Pair>)
    requires forall p | p in ps :: p.weight > 0.0
    ensures Weight(ps) >= 0.0 && (ps != [] ==> Weight(ps) > 0.0)
    decreases |ps|
  {
    if ps != [] {
      WeightIsPositive(ps[..|ps| - 1]);
      assert ps[|ps| - 1] in ps;
    }
  }

  lemma Nonnegative(a: real, b: real)
    requires a >= 0.0 && b >= 0.0
    ensures a * b >= 0.0
  {
  }

  lemma ScaledStays(p: Pair)
    requires p.Proper()
    ensures -p.weight <= p.Value() <= p.weight
  {
    Nonnegative(p.weight, 1.0 - p.difference);
    Nonnegative(p.weight, 1.0 + p.difference);
    assert p.weight * (1.0 - p.difference) == p.weight - p.weight * p.difference;
    assert p.weight * (1.0 + p.difference) == p.weight + p.weight * p.difference;
  }

  lemma {:induction false} WeightedStays(ps: seq<Pair>)
    requires forall p | p in ps :: p.Proper()
    ensures -Weight(ps) <= Weighted(ps) <= Weight(ps)
    decreases |ps|
  {
    if ps != [] {
      var last := ps[|ps| - 1];
      assert last in ps;
      hide Pair.Value;
      ScaledStays(last);
      WeightedStays(ps[..|ps| - 1]);
    }
  }

  lemma Divided(n: real, w: real)
    requires w > 0.0 && -w <= n <= w
    ensures -1.0 <= n / w <= 1.0
  {
    var q := n / w;
    assert q * w == n;
    TimesOver(q, w);
  }

  lemma TimesOver(q: real, w: real)
    requires w > 0.0
    ensures q > 1.0 ==> q * w > w
    ensures q < -1.0 ==> q * w < -w
  {
  }

  lemma MeanStays(ps: seq<Pair>)
    requires Proper(ps)
    ensures Weight(ps) > 0.0 && -1.0 <= Mean(ps) <= 1.0
  {
    WeightIsPositive(ps);
    WeightedStays(ps);
    Divided(Weighted(ps), Weight(ps));
  }

  lemma SquareStays(x: real)
    requires -1.0 <= x <= 1.0
    ensures 0.0 <= Square(x) <= 1.0
  {
    if x >= 0.0 { assert x * x <= x * 1.0; } else { assert -x * -x <= -x * 1.0; }
  }

  lemma ImprovementStays(a: Score, b: Score, metric: Metric)
    requires a.Valid() && b.Valid()
    ensures Improvement(a, b, metric).Some? ==> -1.0 <= Improvement(a, b, metric).value <= 1.0
  {
    if metric == Brier && Improvement(a, b, metric).Some? {
      SquareStays(b.predicted.value - Truth(a.actual.value));
      SquareStays(a.predicted.value - Truth(a.actual.value));
    }
  }

  ghost predicate AllValid(t: map<Id, Score>) { forall k | k in t :: t[k].Valid() }

  lemma {:induction false} GroupsAreProper(keys: seq<Id>, left: map<Id, Score>, right: map<Id, Score>, metric: Metric)
    requires (forall k | k in keys :: k in left && k in right) && AllValid(left) && AllValid(right)
    ensures forall root | root in Grouped(keys, left, right, metric) :: Proper(Grouped(keys, left, right, metric)[root])
    decreases |keys|
  {
    if keys != [] {
      var k := keys[|keys| - 1];
      GroupsAreProper(keys[..|keys| - 1], left, right, metric);
      ImprovementStays(left[k], right[k], metric);
    }
  }

  /** Swapping the sides negates every difference, in the same groups with the same weights. */
  function Negated(ps: seq<Pair>): seq<Pair> {
    seq(|ps|, i requires 0 <= i < |ps| => Pair(ps[i].weight, -ps[i].difference))
  }

  lemma ImprovementSwaps(a: Score, b: Score, metric: Metric)
    requires SameCase(a, b)
    ensures match Improvement(a, b, metric)
            case None => Improvement(b, a, metric).None?
            case Some(d) => Improvement(b, a, metric) == Some(-d)
  {
  }

  lemma {:induction false} GroupsSwap(keys: seq<Id>, left: map<Id, Score>, right: map<Id, Score>, metric: Metric)
    requires forall k | k in keys :: k in left && k in right && SameCase(left[k], right[k])
    ensures var g, h := Grouped(keys, left, right, metric), Grouped(keys, right, left, metric);
      h.Keys == g.Keys && forall root | root in g :: h[root] == Negated(g[root])
    ensures Scored(keys, left, right, metric) == Scored(keys, right, left, metric)
    decreases |keys|
  {
    if keys != [] {
      var k := keys[|keys| - 1];
      GroupsSwap(keys[..|keys| - 1], left, right, metric);
      ImprovementSwaps(left[k], right[k], metric);
      NegatedMore();
    }
  }

  lemma NegatedMore()
    ensures forall ps: seq<Pair>, p: Pair :: Negated(ps + [p]) == Negated(ps) + [Pair(p.weight, -p.difference)]
  {
  }

  lemma {:induction false} NegatedSums(ps: seq<Pair>)
    ensures Weight(Negated(ps)) == Weight(ps) && Weighted(Negated(ps)) == -Weighted(ps)
    decreases |ps|
  {
    if ps != [] {
      var before := ps[..|ps| - 1];
      assert Negated(ps)[..|ps| - 1] == Negated(before);
      NegatedSums(before);
      var p := ps[|ps| - 1];
      assert p.weight * -p.difference == -(p.weight * p.difference);
    }
  }

  lemma MeanNegates(ps: seq<Pair>)
    requires Weight(ps) > 0.0
    ensures Weight(Negated(ps)) > 0.0 && Mean(Negated(ps)) == -Mean(ps)
  {
    NegatedSums(ps);
  }

  predicate DistinctRows(rows: seq<Score>) {
    forall i, j | 0 <= i < j < |rows| :: rows[i].row != rows[j].row
  }

  predicate ValidScores(rows: seq<Score>) { forall s | s in rows :: s.Valid() }

  function Rows(rows: seq<Score>): set<Id> { set r | r in rows :: r.row }

  lemma {:induction false} TableHolds(rows: seq<Score>)
    ensures Table(rows).Keys == Rows(rows)
    ensures ValidScores(rows) ==> AllValid(Table(rows))
    decreases |rows|
  {
    if rows != [] {
      var last := rows[|rows| - 1];
      TableHolds(rows[..|rows| - 1]);
      assert rows == rows[..|rows| - 1] + [last];
      assert Rows(rows) == Rows(rows[..|rows| - 1]) + {last.row};
    }
  }

  /** A table is as large as its rows exactly when no id repeats. */
  lemma {:induction false} TableCounts(rows: seq<Score>)
    ensures |Rows(rows)| <= |rows| && (|Rows(rows)| == |rows| <==> DistinctRows(rows))
    decreases |rows|
  {
    if rows != [] {
      var n := |rows| - 1;
      var before, last := rows[..n], rows[n];
      TableCounts(before);
      assert rows == before + [last];
      assert Rows(rows) == Rows(before) + {last.row};
      hide Table;
      DistinctOn(before, last);
      if last.row in Rows(before) {
        assert Rows(rows) == Rows(before);
      } else {
        assert |Rows(rows)| == |Rows(before)| + 1;
      }
    }
  }

  lemma DistinctOn(before: seq<Score>, last: Score)
    ensures DistinctRows(before + [last]) <==> DistinctRows(before) && last.row !in Rows(before)
  {
    var rows, n := before + [last], |before|;
    assert forall i | 0 <= i < n :: rows[i] == before[i] && before[i] in before;
    if last.row in Rows(before) {
      var r :| r in before && r.row == last.row;
      var i :| 0 <= i < n && before[i] == r;
      assert rows[i].row == rows[n].row;
    }
  }

  /** The ids on both sides, in the order `sorted` returns them: each once. */
  ghost predicate Enumerates(keys: seq<Id>, ids: set<Id>) {
    (forall i, j | 0 <= i < j < |keys| :: keys[i] != keys[j]) && forall k :: k in keys <==> k in ids
  }

  lemma {:induction false} EnumerationSize(keys: seq<Id>, ids: set<Id>)
    requires Enumerates(keys, ids)
    ensures |keys| == |ids|
    decreases |keys|
  {
    if keys == [] {
      assert ids == {};
    } else {
      var n := |keys| - 1;
      assert keys == keys[..n] + [keys[n]];
      assert keys[n] in ids;
      EnumerationSize(keys[..n], ids - {keys[n]});
    }
  }

  /** Both tuples are admissible and every matched pair describes the same case. */
  ghost predicate Comparable(candidate: seq<Score>, baseline: seq<Score>) {
    && |candidate| <= MAX_ROWS && |baseline| <= MAX_ROWS
    && DistinctRows(candidate) && DistinctRows(baseline)
    && forall k | k in Table(candidate) && k in Table(baseline) :: SameCase(Table(candidate)[k], Table(baseline)[k])
  }

  lemma UnionSize(a: set<Id>, b: set<Id>)
    ensures |(a - b) + (b - a)| + |a * b| == |a + b|
  {
    assert a + b == ((a - b) + (b - a)) + a * b;
    assert ((a - b) + (b - a)) !! a * b;
  }

  /** The loop over the matched ids: groups, how many pairs, and how many ids with a score missing;
      or the discovery that a pair describes different cases. */
  method Match(left: map<Id, Score>, right: map<Id, Score>, metric: Metric, keys: seq<Id>)
    returns (same: bool, groups: Groups, paired: nat, missing: nat)
    requires forall k | k in keys :: k in left && k in right
    ensures same <==> forall k | k in keys :: SameCase(left[k], right[k])
    ensures same ==> groups == Grouped(keys, left, right, metric)
    ensures same ==> paired == Scored(keys, left, right, metric) && paired + missing == |keys|
  {
    hide SameCase, Improvement, Add;
    same, groups, paired, missing := true, map[], 0, 0;
    var i := 0;
    while i < |keys|
      invariant i <= |keys| && same
      invariant forall k | k in keys[..i] :: SameCase(left[k], right[k])
      invariant groups == Grouped(keys[..i], left, right, metric)
      invariant paired == Scored(keys[..i], left, right, metric) && paired + missing == i
    {
      var a, b := left[keys[i]], right[keys[i]];
      assert keys[..i + 1][..i] == keys[..i];
      if !SameCase(a, b) {
        same := false;
        return;
      }
      var improvement := Improvement(a, b, metric);
      if improvement.None? {
        missing := missing + 1;
      } else {
        groups := Add(groups, a.root, Pair(a.weight, improvement.value));
        paired := paired + 1;
      }
      i := i + 1;
    }
    assert keys[..i] == keys;
  }

  // -------------------------------------------------------------- the comparison

  /** The part of all rows that is paired, if there are any. */
  function Coverage(paired: nat, omitted: nat): Option<real> {
    if paired + omitted == 0 then None else Some(paired as real / (paired + omitted) as real)
  }

  lemma CoverageStays(paired: nat, omitted: nat)
    ensures Coverage(paired, omitted).Some? ==> 0.0 <= Coverage(paired, omitted).value <= 1.0
  {
    if paired + omitted != 0 {
      var part, whole := paired as real, (paired + omitted) as real;
      var q := part / whole;
      assert q * whole == part;
      TimesOver(q, whole);
      TimesUnder(q, whole);
    }
  }

  lemma TimesUnder(q: real, w: real)
    requires w > 0.0
    ensures q < 0.0 ==> q * w < 0.0
  {
  }

  /** Every root's pairs are proper and have a mean between -1 and 1. */
  ghost predicate Averaged(groups: Groups) {
    forall root | root in groups ::
      Proper(groups[root]) && Weight(groups[root]) > 0.0 && -1.0 <= Mean(groups[root]) <= 1.0
  }

  lemma MeansAreDefined(keys: seq<Id>, left: map<Id, Score>, right: map<Id, Score>, metric: Metric)
    requires (forall k | k in keys :: k in left && k in right) && AllValid(left) && AllValid(right)
    ensures Averaged(Grouped(keys, left, right, metric))
  {
    hide Grouped, Proper, Mean, Weight;
    var groups := Grouped(keys, left, right, metric);
    GroupsAreProper(keys, left, right, metric);
    forall root | root in groups ensures Weight(groups[root]) > 0.0 && -1.0 <= Mean(groups[root]) <= 1.0 {
      MeanStays(groups[root]);
    }
  }

  function Means(groups: Groups): map<Root, real>
    requires Averaged(groups)
  {
    map root | root in groups :: Mean(groups[root])
  }

  lemma MeansAre(groups: Groups)
    requires Averaged(groups)
    ensures Means(groups).Keys == groups.Keys
    ensures forall root | root in groups :: Proper(groups[root]) && Weight(groups[root]) > 0.0
    ensures forall root | root in groups ::
      Means(groups)[root] == Mean(groups[root]) && -1.0 <= Means(groups)[root] <= 1.0
  {
    hide Mean, Weight, Proper;
  }

  /** The weighted mean difference of every root. */
  ghost function Differences(keys: seq<Id>, left: map<Id, Score>, right: map<Id, Score>,
      metric: Metric): map<Root, real>
    requires (forall k | k in keys :: k in left && k in right) && AllValid(left) && AllValid(right)
  {
    MeansAreDefined(keys, left, right, metric);
    Means(Grouped(keys, left, right, metric))
  }

  /** What a comparison of two lists of scores is: refused unless they are comparable; otherwise the
      differences of the roots, and all rows counted as paired or omitted. */
  ghost function Compared(candidate: seq<Score>, baseline: seq<Score>, metric: Metric,
      keys: seq<Id>): Option<Comparison>
    requires ValidScores(candidate) && ValidScores(baseline)
    requires Enumerates(keys, Rows(candidate) * Rows(baseline))
  {
    var left, right := Table(candidate), Table(baseline);
    TablesHold(candidate, baseline, metric, keys);
    if !Comparable(candidate, baseline) then None
    else
      var paired := Scored(keys, left, right, metric);
      var omitted := |Rows(candidate) + Rows(baseline)| - paired;
      Some(Comparison(Differences(keys, left, right, metric), paired, omitted, Coverage(paired, omitted)))
  }

  lemma TablesHold(candidate: seq<Score>, baseline: seq<Score>, metric: Metric, keys: seq<Id>)
    requires ValidScores(candidate) && ValidScores(baseline)
    requires Enumerates(keys, Rows(candidate) * Rows(baseline))
    ensures AllValid(Table(candidate)) && AllValid(Table(baseline))
    ensures Table(candidate).Keys == Rows(candidate) && Table(baseline).Keys == Rows(baseline)
    ensures forall k | k in keys :: k in Table(candidate) && k in Table(baseline)
    ensures Scored(keys, Table(candidate), Table(baseline), metric) <= |Rows(candidate) + Rows(baseline)|
  {
    hide Table, AllValid, ValidScores;
    TableHolds(candidate);
    TableHolds(baseline);
    ScoredFits(keys, Table(candidate), Table(baseline), metric);
    UnionSize(Rows(candidate), Rows(baseline));
    EnumerationSize(keys, Rows(candidate) * Rows(baseline));
  }

  lemma {:induction false} ScoredFits(keys: seq<Id>, left: map<Id, Score>, right: map<Id, Score>, metric: Metric)
    requires forall k | k in keys :: k in left && k in right
    ensures Scored(keys, left, right, metric) <= |keys|
    decreases |keys|
  {
    hide Improvement;
    if keys != [] {
      ScoredFits(keys[..|keys| - 1], left, right, metric);
    }
  }

  /** Every id is either paired or counted as omitted, and every root difference is the mean of
      proper pairs, hence between -1 and 1. */
  ghost predicate Adds(candidate: seq<Score>, baseline: seq<Score>, metric: Metric, keys: seq<Id>, c: Comparison) {
    && (forall k | k in keys :: k in Table(candidate) && k in Table(baseline))
    && var groups := Grouped(keys, Table(candidate), Table(baseline), metric);
    && c.differences.Keys == groups.Keys
    && (forall root | root in groups :: Proper(groups[root]) && Weight(groups[root]) > 0.0
          && c.differences[root] == Mean(groups[root]) && -1.0 <= c.differences[root] <= 1.0)
    && c.paired == Scored(keys, Table(candidate), Table(baseline), metric)
    && c.paired + c.omitted == |Rows(candidate) + Rows(baseline)|
    && (c.coverage.Some? ==> 0.0 <= c.coverage.value <= 1.0)
  }

  lemma ComparedAdds(candidate: seq<Score>, baseline: seq<Score>, metric: Metric, keys: seq<Id>)
    requires ValidScores(candidate) && ValidScores(baseline)
    requires Enumerates(keys, Rows(candidate) * Rows(baseline))
    requires Comparable(candidate, baseline)
    ensures Adds(candidate, baseline, metric, keys, Compared(candidate, baseline, metric, keys).value)
  {
    hide Table, Grouped, Scored, Comparable, Averaged, Means, Rows, Enumerates, AllValid, Coverage, Mean, Weight,
      Proper, ValidScores;
    TablesHold(candidate, baseline, metric, keys);
    MeansAreDefined(keys, Table(candidate), Table(baseline), metric);
    MeansAre(Grouped(keys, Table(candidate), Table(baseline), metric));
    var paired := Scored(keys, Table(candidate), Table(baseline), metric);
    CoverageStays(paired, |Rows(candidate) + Rows(baseline)| - paired);
  }

  /** What the method tests, in its own terms. */
  lemma ComparableIs(candidate: seq<Score>, baseline: seq<Score>, keys: seq<Id>)
    requires Enumerates(keys, Rows(candidate) * Rows(baseline))
    ensures forall k | k in keys :: k in Table(candidate) && k in Table(baseline)
    ensures Comparable(candidate, baseline) <==>
      && |candidate| <= MAX_ROWS && |baseline| <= MAX_ROWS
      && |Table(candidate).Keys| == |candidate| && |Table(baseline).Keys| == |baseline|
      && forall k | k in keys :: SameCase(Table(candidate)[k], Table(baseline)[k])
  {
    hide Table, DistinctRows, SameCase;
    TableHolds(candidate);
    TableHolds(baseline);
    TableCounts(candidate);
    TableCounts(baseline);
  }

  /** The whole comparison, refused exactly when the two sides are not comparable. */
  method PairedImprovement(candidate: seq<Score>, baseline: seq<Score>, metric: Metric, keys: seq<Id>)
    returns (r: Option<Comparison>)
    requires ValidScores(candidate) && ValidScores(baseline)
    requires Enumerates(keys, Rows(candidate) * Rows(baseline))
    ensures r == Compared(candidate, baseline, metric, keys)
    ensures r.Some? <==> Comparable(candidate, baseline)
    ensures r.Some? ==> Adds(candidate, baseline, metric, keys, r.value)
  {
    hide Table, Grouped, Scored, Comparable, SameCase, Averaged, AllValid, Means, Coverage, Rows, Enumerates,
      ValidScores, Adds;
    TablesHold(candidate, baseline, metric, keys);
    ComparableIs(candidate, baseline, keys);
    if |candidate| > MAX_ROWS || |baseline| > MAX_ROWS {
      return None;
    }
    var left, right := Table(candidate), Table(baseline);
    if |left.Keys| != |candidate| || |right.Keys| != |baseline| {
      return None;
    }
    var omitted := |(left.Keys - right.Keys) + (right.Keys - left.Keys)|;
    var same, groups, paired, missing := Match(left, right, metric, keys);
    if !same {
      return None;
    }
    MeansAreDefined(keys, left, right, metric);
    AllCounted(candidate, baseline, keys);
    ComparedAdds(candidate, baseline, metric, keys);
    r := Some(Comparison(Means(groups), paired, omitted + missing, Coverage(paired, omitted + missing)));
  }

  lemma AllCounted(candidate: seq<Score>, baseline: seq<Score>, keys: seq<Id>)
    requires Enumerates(keys, Rows(candidate) * Rows(baseline))
    ensures var left, right := Table(candidate).Keys, Table(baseline).Keys;
      |(left - right) + (right - left)| + |keys| == |Rows(candidate) + Rows(baseline)|
  {
    hide Rows, Table, Enumerates;
    TableHolds(candidate);
    TableHolds(baseline);
    UnionSize(Rows(candidate), Rows(baseline));
    EnumerationSize(keys, Rows(candidate) * Rows(baseline));
  }

  /** Exchanging candidate and baseline is refused alike, keeps the counts and the coverage, and
      negates every root difference. */
  lemma SwapNegates(candidate: seq<Score>, baseline: seq<Score>, metric: Metric, keys: seq<Id>)
    requires ValidScores(candidate) && ValidScores(baseline)
    requires Enumerates(keys, Rows(candidate) * Rows(baseline))
    ensures Enumerates(keys, Rows(baseline) * Rows(candidate))
    ensures var r, s := Compared(candidate, baseline, metric, keys), Compared(baseline, candidate, metric, keys);
      && (r.Some? <==> s.Some?)
      && (r.Some? ==>
          && s.value.paired == r.value.paired && s.value.omitted == r.value.omitted
          && s.value.coverage == r.value.coverage
          && s.value.differences.Keys == r.value.differences.Keys
          && forall root | root in r.value.differences :: s.value.differences[root] == -r.value.differences[root])
  {
    hide Table, Grouped, Scored, DistinctRows, SameCase, Mean, Weight, ValidScores, AllValid, Differences, Coverage;
    var ids := Rows(candidate) * Rows(baseline);
    assert Rows(baseline) * Rows(candidate) == ids;
    assert Rows(baseline) + Rows(candidate) == Rows(candidate) + Rows(baseline);
    TablesHold(candidate, baseline, metric, keys);
    TablesHold(baseline, candidate, metric, keys);
    ComparableSwaps(candidate, baseline);
    if Comparable(candidate, baseline) {
      DifferencesNegate(keys, Table(candidate), Table(baseline), metric);
    }
  }

  lemma ComparableSwaps(a: seq<Score>, b: seq<Score>)
    ensures Comparable(a, b) <==> Comparable(b, a)
  {
    hide Table, DistinctRows;
  }

  lemma DifferencesNegate(keys: seq<Id>, left: map<Id, Score>, right: map<Id, Score>, metric: Metric)
    requires AllValid(left) && AllValid(right)
    requires forall k | k in keys :: k in left && k in right && SameCase(left[k], right[k])
    ensures var d, e := Differences(keys, left, right, metric), Differences(keys, right, left, metric);
      e.Keys == d.Keys && forall root | root in d :: e[root] == -d[root]
    ensures Scored(keys, left, right, metric) == Scored(keys, right, left, metric)
  {
    hide Grouped, Scored, SameCase, Mean, Weight, AllValid, Negated, Proper;
    GroupsSwap(keys, left, right, metric);
    MeansAreDefined(keys, left, right, metric);
    var g := Grouped(keys, left, right, metric);
    forall root | root in g ensures Weight(Negated(g[root])) > 0.0 && Mean(Negated(g[root])) == -Mean(g[root]) {
      MeanNegates(g[root]);
    }
  }

  // ----------------------------------------------------------- which side is better

  /** How far a prediction is from the truth. */
  function Miss(predicted: real, actual: bool): real {
    var d := predicted - Truth(actual);
    if d >= 0.0 then d else -d
  }

  /** The first row is strictly closer to the truth, or has the larger edge F1. */
  predicate Closer(a: Score, b: Score, metric: Metric) {
    match metric
    case Brier =>
      && a.actual.Some? && a.predicted.Some? && b.predicted.Some?
      && Miss(a.predicted.value, a.actual.value) < Miss(b.predicted.value, a.actual.value)
    case EdgeF1 => a.edgeF1.Some? && b.edgeF1.Some? && a.edgeF1.value > b.edgeF1.value
  }

  lemma SquareGrows(x: real, y: real)
    requires 0.0 <= x < y
    ensures x * x < y * y
  {
    var less, more := y - x, y + x;
    ProductIsPositive(less, more);
    assert less * more == y * y - x * x;
  }

  lemma SquareOfMiss(predicted: real, actual: bool)
    ensures Square(predicted - Truth(actual)) == Square(Miss(predicted, actual))
  {
  }

  /** Closer rows improve. */
  lemma CloserImproves(a: Score, b: Score, metric: Metric)
    requires Closer(a, b, metric)
    ensures Improvement(a, b, metric).Some? && Improvement(a, b, metric).value > 0.0
  {
    if metric == Brier {
      hide Miss;
      var truth := a.actual.value;
      SquareOfMiss(a.predicted.value, truth);
      SquareOfMiss(b.predicted.value, truth);
      MissIsPositive(a.predicted.value, truth);
      SquareGrows(Miss(a.predicted.value, truth), Miss(b.predicted.value, truth));
    }
  }

  lemma MissIsPositive(predicted: real, actual: bool)
    ensures Miss(predicted, actual) >= 0.0
  {
  }

  /** Every pair of a group comes from a matched, scored row of that root. */
  lemma {:induction false} GroupComesFrom(keys: seq<Id>, left: map<Id, Score>, right: map<Id, Score>, metric: Metric,
      root: Root, p: Pair)
    returns (k: Id)
    requires forall k | k in keys :: k in left && k in right
    requires root in Grouped(keys, left, right, metric) && p in Grouped(keys, left, right, metric)[root]
    ensures k in keys && left[k].root == root
    ensures Improvement(left[k], right[k], metric) == Some(p.difference) && p.weight == left[k].weight
    decreases |keys|
  {
    hide Improvement;
    var before, last := keys[..|keys| - 1], keys[|keys| - 1];
    var groups := Grouped(before, left, right, metric);
    if root in groups && p in groups[root] {
      k := GroupComesFrom(before, left, right, metric, root, p);
    } else {
      k := last;
    }
  }

  lemma {:induction false} WeightedIsPositive(ps: seq<Pair>)
    requires ps != [] && forall p | p in ps :: p.weight > 0.0 && p.difference > 0.0
    ensures Weighted(ps) > 0.0
    decreases |ps|
  {
    var before, last := ps[..|ps| - 1], ps[|ps| - 1];
    assert last in ps;
    ProductIsPositive(last.weight, last.difference);
    if before != [] {
      WeightedIsPositive(before);
    }
  }

  lemma ProductIsPositive(a: real, b: real)
    requires a > 0.0 && b > 0.0
    ensures a * b > 0.0
  {
  }

  lemma QuotientIsPositive(n: real, w: real)
    requires n > 0.0 && w > 0.0
    ensures n / w > 0.0
  {
    var q := n / w;
    assert q * w == n;
    TimesUnder(q, w);
  }

  /** A root whose scored rows are all closer to the truth on the candidate's side has a positive
      difference. */
  lemma CloserIsPositive(candidate: seq<Score>, baseline: seq<Score>, metric: Metric, keys: seq<Id>, root: Root)
    requires ValidScores(candidate) && ValidScores(baseline)
    requires Enumerates(keys, Rows(candidate) * Rows(baseline))
    requires Comparable(candidate, baseline)
    requires root in Compared(candidate, baseline, metric, keys).value.differences
    requires forall k | k in Table(candidate) && k in Table(baseline) && Table(candidate)[k].root == root ::
      Improvement(Table(candidate)[k], Table(baseline)[k], metric).None?
      || Closer(Table(candidate)[k], Table(baseline)[k], metric)
    ensures Compared(candidate, baseline, metric, keys).value.differences[root] > 0.0
  {
    hide Table, Grouped, Comparable, Rows, Enumerates, ValidScores, Improvement, Closer, Weighted, Weight, Scored,
      Coverage;
    TablesHold(candidate, baseline, metric, keys);
    ComparedAdds(candidate, baseline, metric, keys);
    var left, right := Table(candidate), Table(baseline);
    var ps := Grouped(keys, left, right, metric)[root];
    forall p | p in ps ensures p.weight > 0.0 && p.difference > 0.0 {
      var k := GroupComesFrom(keys, left, right, metric, root, p);
      CloserImproves(left[k], right[k], metric);
    }
    WeightedIsPositive(ps);
    QuotientIsPositive(Weighted(ps), Weight(ps));
  }

  // ------------------------------------------------------- without groups or pairs

  /** The weight of the matched, scored rows of a root, and their weighted improvements. */
  function RootWeight(keys: seq<Id>, left: map<Id, Score>, right: map<Id, Score>, metric: Metric, root: Root): real
    requires forall k | k in keys :: k in left && k in right
  {
    if keys == [] then 0.0
    else
      var before, k := keys[..|keys| - 1], keys[|keys| - 1];
      RootWeight(before, left, right, metric, root)
      + if left[k].root == root && Improvement(left[k], right[k], metric).Some? then left[k].weight else 0.0
  }

  function RootGain(keys: seq<Id>, left: map<Id, Score>, right: map<Id, Score>, metric: Metric, root: Root): real
    requires forall k | k in keys :: k in left && k in right
  {
    if keys == [] then 0.0
    else
      var before, k := keys[..|keys| - 1], keys[|keys| - 1];
      var improvement := Improvement(left[k], right[k], metric);
      RootGain(before, left, right, metric, root)
      + if left[k].root == root && improvement.Some? then Product(left[k].weight, improvement.value) else 0.0
  }

  function Product(a: real, b: real): real { a * b }

  lemma {:induction false} GroupSums(keys: seq<Id>, left: map<Id, Score>, right: map<Id, Score>, metric: Metric,
      root: Root)
    requires forall k | k in keys :: k in left && k in right
    ensures var groups := Grouped(keys, left, right, metric);
      if root in groups then
        && Weight(groups[root]) == RootWeight(keys, left, right, metric, root)
        && Weighted(groups[root]) == RootGain(keys, left, right, metric, root)
      else RootWeight(keys, left, right, metric, root) == 0.0 && RootGain(keys, left, right, metric, root) == 0.0
    decreases |keys|
  {
    hide Improvement, Weight, Weighted;
    NoPairs();
    if keys != [] {
      var before, k := keys[..|keys| - 1], keys[|keys| - 1];
      GroupSums(before, left, right, metric, root);
      var improvement := Improvement(left[k], right[k], metric);
      if left[k].root == root && improvement.Some? {
        var groups := Grouped(before, left, right, metric);
        OnePairMore(if root in groups then groups[root] else [], Pair(left[k].weight, improvement.value));
      }
    }
  }

  lemma NoPairs()
    ensures Weight([]) == 0.0 && Weighted([]) == 0.0
  {
  }

  lemma OnePairMore(ps: seq<Pair>, p: Pair)
    ensures Weight(ps + [p]) == Weight(ps) + p.weight
    ensures Weighted(ps + [p]) == Weighted(ps) + Product(p.weight, p.difference)
  {
    assert (ps + [p])[..|ps|] == ps;
  }

  /** Every root difference is the weighted mean improvement of the root's matched, scored rows. */
  lemma DifferenceIsMean(candidate: seq<Score>, baseline: seq<Score>, metric: Metric, keys: seq<Id>, root: Root)
    requires ValidScores(candidate) && ValidScores(baseline)
    requires Enumerates(keys, Rows(candidate) * Rows(baseline)) && Comparable(candidate, baseline)
    requires root in Compared(candidate, baseline, metric, keys).value.differences
    ensures forall k | k in keys :: k in Table(candidate) && k in Table(baseline)
    ensures var left, right := Table(candidate), Table(baseline);
      && RootWeight(keys, left, right, metric, root) > 0.0
      && Compared(candidate, baseline, metric, keys).value.differences[root]
           == RootGain(keys, left, right, metric, root) / RootWeight(keys, left, right, metric, root)
  {
    hide Table, Grouped, Comparable, Rows, Enumerates, ValidScores, Weighted, Weight, Scored, Coverage, RootGain,
      RootWeight;
    TablesHold(candidate, baseline, metric, keys);
    ComparedAdds(candidate, baseline, metric, keys);
    GroupSums(keys, Table(candidate), Table(baseline), metric, root);
  }
}
