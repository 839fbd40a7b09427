/** How many batches a collection needs: each batch runs whole roots and its controls within an
    attempt limit and a time limit. */
module Planning {
  import opened Wrappers

  const LIMIT: nat := 20
  const SECONDS: nat := 1800

  /** The required roots: training, calibration, normal test, positive test. */
  const STRATA: seq<nat> := [20, 100, 300, 100]

  datatype Stratum = Stratum(roots: nat, batches: nat, attempts: nat)

  datatype Plan = Plan(rootsPerBatch: nat, strata: seq<Stratum>, batches: nat, attempts: nat, serialSeconds: real)

  /** n attempts of s seconds fit one batch. */
  predicate Fits(n: int, s: real) { n <= LIMIT && n as real * s <= SECONDS as real }

  predicate Acceptable(a: int, c: int, s: real) {
    1 <= a <= LIMIT && 0 <= c < LIMIT && s > 0.0
  }

  function TimeCapacity(s: real): int
    requires s > 0.0
  {
    if s <= SECONDS as real / LIMIT as real then LIMIT else (SECONDS as real / s).Floor
  }

  function Ceiling(n: nat, d: nat): nat
    requires d > 0
  {
    (n + d - 1) / d
  }

  lemma Scales(a: real, b: real, s: real)
    requires s > 0.0
    ensures a <= b <==> a * s <= b * s
  {
    if a > b {
      assert (a - b) * s > 0.0;
    } else {
      assert (b - a) * s >= 0.0;
    }
  }

  /** When attempts are short the attempt limit decides. */
  lemma ShortAttempts(n: int, s: real)
    requires 0.0 < s <= 90.0 && n <= LIMIT
    ensures n as real * s <= 1800.0
  {
    Scales(n as real, 20.0, s);
  }

  /** Otherwise the time limit does. */
  lemma LongAttempts(n: int, s: real)
    requires s > 90.0
    ensures n <= (1800.0 / s).Floor <==> n as real * s <= 1800.0
  {
    var q := 1800.0 / s;
    assert q * s == 1800.0;
    Scales(n as real, q, s);
  }

  lemma FewLongAttempts(s: real)
    requires s > 90.0
    ensures (1800.0 / s).Floor < LIMIT
  {
    var q := 1800.0 / s;
    assert q * s == 1800.0;
    Scales(20.0, q, s);
  }

  /** The capacity computed is exactly the number of attempts that fit both limits. */
  lemma CapacityIsExact(n: int, s: real)
    requires s > 0.0
    ensures n <= LIMIT && n <= TimeCapacity(s) <==> Fits(n, s)
  {
    assert SECONDS as real / LIMIT as real == 90.0;
    if s > 90.0 {
      LongAttempts(n, s);
      FewLongAttempts(s);
    } else if n <= LIMIT {
      ShortAttempts(n, s);
    }
  }

  lemma CeilingIsLeast(n: nat, d: nat)
    requires d > 0
    ensures Ceiling(n, d) * d >= n
    ensures forall k: nat :: k * d >= n ==> k >= Ceiling(n, d)
  {
    var q := Ceiling(n, d);
    var r := (n + d - 1) % d;
    assert n + d - 1 == q * d + r && 0 <= r < d;
    forall k: nat | k * d >= n ensures k >= q {
      TimesGrow(k + 1, q, d);
    }
  }

  lemma TimesGrow(a: nat, b: nat, d: nat)
    ensures a <= b ==> a * d <= b * d
  {
  }

  /** Whole roots that fit one batch beside its controls; one more root would break a limit. */
  ghost predicate FullBatch(n: nat, a: int, c: int, s: real) {
    Fits(n * a + c, s) && !Fits((n + 1) * a + c, s)
  }

  /** A stratum in the fewest batches of n roots, with controls in every batch. */
  ghost predicate LeastBatches(t: Stratum, n: nat, a: int, c: int) {
    && t.batches * n >= t.roots
    && (forall k: nat :: k * n >= t.roots ==> k >= t.batches)
    && t.attempts == t.roots * a + t.batches * c
  }

  function Batches(ts: seq<Stratum>): nat {
    if ts == [] then 0 else Batches(ts[..|ts| - 1]) + ts[|ts| - 1].batches
  }

  function Attempts(ts: seq<Stratum>): nat {
    if ts == [] then 0 else Attempts(ts[..|ts| - 1]) + ts[|ts| - 1].attempts
  }

  method MakePlan(a: int, c: int, s: real) returns (r: Option<Plan>)
    ensures r.Some? <==> Acceptable(a, c, s) && Fits(a + c, s)
    ensures r.Some? ==>
      && r.value.rootsPerBatch >= 1 && FullBatch(r.value.rootsPerBatch, a, c, s)
      && |r.value.strata| == |STRATA|
      && (forall i | 0 <= i < |STRATA| ::
            r.value.strata[i].roots == STRATA[i] && LeastBatches(r.value.strata[i], r.value.rootsPerBatch, a, c))
      && r.value.batches == Batches(r.value.strata) && r.value.attempts == Attempts(r.value.strata)
      && r.value.serialSeconds == r.value.attempts as real * s
  {
    hide Fits, FullBatch, LeastBatches, Ceiling, TimeCapacity;
    if !Acceptable(a, c, s) {
      return None;
    }
    var time := TimeCapacity(s);
    var capacity := (if time < LIMIT then time else LIMIT) - c;
    CapacityIsExact(a + c, s);
    if capacity < a {
      return None;
    }
    var n: nat := capacity / a;
    CapacityIsFull(capacity, a, c, s);
    var strata: seq<Stratum> := [];
    var i := 0;
    while i < |STRATA|
      invariant i <= |STRATA| && |strata| == i
      invariant forall k | 0 <= k < i :: strata[k].roots == STRATA[k] && LeastBatches(strata[k], n, a, c)
    {
      StratumIsLeast(STRATA[i], n, a, c);
      var batches := Ceiling(STRATA[i], n);
      strata := strata + [Stratum(STRATA[i], batches, STRATA[i] * a + batches * c)];
      i := i + 1;
    }
    r := Some(Plan(n, strata, Batches(strata), Attempts(strata), Attempts(strata) as real * s));
  }

  lemma StratumIsLeast(roots: nat, n: nat, a: int, c: int)
    requires n >= 1 && a >= 0 && c >= 0
    ensures roots * a + Ceiling(roots, n) * c >= 0
    ensures LeastBatches(Stratum(roots, Ceiling(roots, n), roots * a + Ceiling(roots, n) * c), n, a, c)
  {
    hide Ceiling;
    CeilingIsLeast(roots, n);
    TimesGrow(0, roots, a);
    TimesGrow(0, Ceiling(roots, n), c);
  }

  lemma CapacityIsFull(capacity: int, a: int, c: int, s: real)
    requires Acceptable(a, c, s) && capacity >= a
    requires capacity == (if TimeCapacity(s) < LIMIT then TimeCapacity(s) else LIMIT) - c
    ensures capacity / a >= 1 && FullBatch(capacity / a, a, c, s)
  {
    hide Fits, TimeCapacity;
    var n := capacity / a;
    RootsAreMost(capacity, a, n);
    CapacityIsExact(n * a + c, s);
    CapacityIsExact((n + 1) * a + c, s);
  }

  lemma RootsAreMost(capacity: int, a: int, n: int)
    requires 1 <= a <= capacity && n == capacity / a
    ensures n >= 1 && n * a <= capacity < (n + 1) * a
  {
  }

  /** Every batch of a stratum, the last and partial one included, fits both limits, and together
      the batches account for every planned attempt. */
  lemma EveryBatchFits(t: Stratum, n: nat, a: int, c: int, s: real, k: nat)
    requires Acceptable(a, c, s) && FullBatch(n, a, c, s) && LeastBatches(t, n, a, c) && k < t.batches
    ensures var roots := if (k + 1) * n <= t.roots then n else t.roots - k * n;
      0 < roots <= n && Fits(roots * a + c, s)
  {
    hide LeastBatches;
    BatchSize(t, n, a, c, k);
    var roots := if (k + 1) * n <= t.roots then n else t.roots - k * n;
    TimesGrow(roots, n, a);
    FewerFit(roots * a + c, n * a + c, s);
  }

  lemma FewerFit(n: int, m: int, s: real)
    requires n <= m && s > 0.0 && Fits(m, s)
    ensures Fits(n, s)
  {
    Scales(n as real, m as real, s);
  }

  lemma BatchSize(t: Stratum, n: nat, a: int, c: int, k: nat)
    requires LeastBatches(t, n, a, c) && k < t.batches
    ensures n > 0 && k * n < t.roots && (k + 1) * n == k * n + n
  {
    assert !(k * n >= t.roots);
    assert (k + 1) * n == k * n + n;
    assert k * n >= 0 && t.batches * n > 0;
  }
}
