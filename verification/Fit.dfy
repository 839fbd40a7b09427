/** Learning the transitions: every root contributes equal mass to every context it visits. */
module Fit {
  import opened Ranking
  import opened Rollout
  import opened Bracketing
  import opened Generate
  import opened Guarantees
  import Beam

  /** A recorded continuation: its root task, its place in the split, its weight and its record. */
  datatype Branch<D, Root> = Branch(root: Root, train: bool, fixed: bool, weight: real, record: D)

  /** The given reading of a record: its first state and steps, whether it ran to a completed end,
      the token of a step, the context of a state, and the state after a step. */
  datatype Reader<!D, !S, !T, !A, !K> = Reader(
    start: D -> S,
    steps: D -> seq<T>,
    completed: D -> bool,
    encode: (D, S, T) -> Token<A>,
    context: (D, S) -> K,
    follow: (D, S, T) -> S)

  datatype Observation<K, Root, A> = Observation(key: K, root: Root, token: Token<A>, weight: real)

  datatype FitError = NoTrainingRoots | ContextLimit | ActionLimit
  datatype Fitted<+T> = Learned(value: T) | Refused(error: FitError)

  type Table<A> = seq<(Token<A>, real)>
  type Counts<K, Root, A> = seq<(K, seq<(Root, Table<A>)>)>

  // -------------------------------------------------------------- what is counted

  /** Teacher forcing: each step is read in the state before it; an unknown step ends the branch. */
  function Trace<D, S, T, Root, A(==), K>(r: Reader<D, S, T, A, K>, b: Branch<D, Root>, state: S,
      i: nat): seq<Observation<K, Root, A>>
    requires i <= |r.steps(b.record)|
    decreases |r.steps(b.record)| - i
  {
    var steps := r.steps(b.record);
    if i == |steps| then
      [Observation(r.context(b.record, state), b.root, if r.completed(b.record) then End else Unknown, b.weight)]
    else
      var token := r.encode(b.record, state, steps[i]);
      [Observation(r.context(b.record, state), b.root, token, b.weight)]
      + (if token == Unknown then [] else Trace(r, b, r.follow(b.record, state, steps[i]), i + 1))
  }

  /** Only fixed-distribution branches of the training part are learned from. */
  function Selected<D, Root>(branches: seq<Branch<D, Root>>): seq<Branch<D, Root>> {
    if branches == [] then []
    else
      var n := |branches| - 1;
      Selected(branches[..n]) + (if branches[n].train && branches[n].fixed then [branches[n]] else [])
  }

  function Observations<D, S, T, Root, A(==), K>(r: Reader<D, S, T, A, K>,
      train: seq<Branch<D, Root>>): seq<Observation<K, Root, A>> {
    if train == [] then []
    else
      var n := |train| - 1;
      Observations(r, train[..n]) + Trace(r, train[n], r.start(train[n].record), 0)
  }

  /** Python's nested defaultdict: find or append the key, then update its value. */
  function Update<Key(==), V>(table: seq<(Key, V)>, key: Key, blank: V, f: V -> V): seq<(Key, V)> {
    if table == [] then [(key, f(blank))]
    else if table[0].0 == key then [(key, f(table[0].1))] + table[1..]
    else [table[0]] + Update(table[1..], key, blank, f)
  }

  function CountRoot<Root(==), A(==)>(root: Root, token: Token<A>,
      weight: real): seq<(Root, Table<A>)> -> seq<(Root, Table<A>)> {
    (rows: seq<(Root, Table<A>)>) => Update(rows, root, [], CountToken(token, weight))
  }

  function CountToken<A(==)>(token: Token<A>, weight: real): Table<A> -> Table<A> {
    (values: Table<A>) => Credit(values, token, weight)
  }

  function Count<K(==), Root(==), A(==)>(counts: Counts<K, Root, A>, o: Observation<K, Root, A>): Counts<K, Root, A> {
    Update(counts, o.key, [], CountRoot(o.root, o.token, o.weight))
  }

  function CountAll<K(==), Root(==), A(==)>(os: seq<Observation<K, Root, A>>): Counts<K, Root, A> {
    if os == [] then [] else Count(CountAll(os[..|os| - 1]), os[|os| - 1])
  }

  // ------------------------------------------------------------- the distribution

  /** One root spreads mass 1/n over its tokens in proportion to their weight. */
  function Spread<A(==)>(table: Table<A>, values: Table<A>, total: real, n: nat): Table<A>
    requires total != 0.0 && n > 0
  {
    if values == [] then table
    else
      var k := |values| - 1;
      Credit(Spread(table, values[..k], total, n), values[k].0, values[k].1 / total / (n as real))
  }

  function Balanced<Root, A(==)>(rows: seq<(Root, Table<A>)>, n: nat): Table<A>
    requires n > 0
    requires forall i :: 0 <= i < |rows| ==> TableSum(rows[i].1) != 0.0
  {
    if rows == [] then []
    else
      var k := |rows| - 1;
      Spread(Balanced(rows[..k], n), rows[k].1, TableSum(rows[k].1), n)
  }

  function InsertPair<A>(le: (Token<A>, Token<A>) -> bool, x: (Token<A>, real), s: Table<A>): Table<A> {
    if s == [] then [x]
    else if le(s[0].0, x.0) then [s[0]] + InsertPair(le, x, s[1..])
    else [x] + s
  }

  function SortTable<A>(le: (Token<A>, Token<A>) -> bool, s: Table<A>): Table<A> {
    if s == [] then [] else InsertPair(le, s[|s| - 1], SortTable(le, s[..|s| - 1]))
  }

  // ------------------------------------------------------------------ its meaning

  ghost predicate Positive<A>(table: Table<A>) {
    forall i :: 0 <= i < |table| ==> table[i].1 > 0.0
  }

  /** A counted table has a row, and one entry, per distinct root and token. */
  ghost predicate WellCounted<Root, A>(rows: seq<(Root, Table<A>)>) {
    && |rows| > 0
    && (forall i, j :: 0 <= i < j < |rows| ==> rows[i].0 != rows[j].0)
    && (forall i :: 0 <= i < |rows| ==> |rows[i].1| > 0 && Positive(rows[i].1) && DistinctKeys(rows[i].1))
  }

  ghost predicate WellFormed<K, Root, A>(counts: Counts<K, Root, A>) {
    && (forall i, j :: 0 <= i < j < |counts| ==> counts[i].0 != counts[j].0)
    && (forall i :: 0 <= i < |counts| ==> WellCounted(counts[i].1))
  }

  lemma {:induction false} CreditPositive<A>(table: Table<A>, t: Token<A>, w: real)
    requires Positive(table) && DistinctKeys(table) && w > 0.0
    ensures Positive(Credit(table, t, w)) && DistinctKeys(Credit(table, t, w)) && |Credit(table, t, w)| > 0
    ensures forall x :: x in Credit(table, t, w) ==> x.0 == t || x in table
  {
    CreditKeys(table, t, w);
    if table != [] && table[0].0 != t {
      CreditPositive(table[1..], t, w);
    }
  }

  lemma {:induction false} UpdateKeys<Key, V>(table: seq<(Key, V)>, key: Key, blank: V, f: V -> V)
    ensures forall i :: 0 <= i < |Update(table, key, blank, f)| ==>
              var x := Update(table, key, blank, f)[i];
              (x.0 == key && (x.1 == f(blank) || exists j :: 0 <= j < |table| && x.1 == f(table[j].1))) || x in table
    ensures (forall i, j :: 0 <= i < j < |table| ==> table[i].0 != table[j].0)
        ==> forall i, j :: 0 <= i < j < |Update(table, key, blank, f)| ==>
          Update(table, key, blank, f)[i].0 != Update(table, key, blank, f)[j].0
    ensures |table| <= |Update(table, key, blank, f)|
  {
    if table != [] && table[0].0 != key {
      UpdateKeys(table[1..], key, blank, f);
      var rest := Update(table[1..], key, blank, f);
      assert Update(table, key, blank, f) == [table[0]] + rest;
      forall i | 0 <= i < |rest|
        ensures (rest[i].0 == key
          && (rest[i].1 == f(blank) || exists j :: 0 <= j < |table| && rest[i].1 == f(table[j].1))) || rest[i] in table
      {
        if rest[i] !in table[1..] && rest[i].1 != f(blank) {
          var j :| 0 <= j < |table[1..]| && rest[i].1 == f(table[1..][j].1);
          assert table[1..][j] == table[j + 1];
        }
      }
    }
  }

  lemma CountWellFormed<K, Root, A>(counts: Counts<K, Root, A>, o: Observation<K, Root, A>)
    requires WellFormed(counts) && o.weight > 0.0
    ensures WellFormed(Count(counts, o)) && |counts| <= |Count(counts, o)|
  {
    var f := CountRoot(o.root, o.token, o.weight);
    UpdateKeys(counts, o.key, [], f);
    var r := Count(counts, o);
    forall i | 0 <= i < |r| ensures WellCounted(r[i].1) {
      if r[i] !in counts {
        if r[i].1 == f([]) {
          CountRootWellCounted([], o);
        } else {
          var j :| 0 <= j < |counts| && r[i].1 == f(counts[j].1);
          CountRootWellCounted(counts[j].1, o);
        }
      }
    }
  }

  lemma CountRootWellCounted<K, Root, A>(rows: seq<(Root, Table<A>)>, o: Observation<K, Root, A>)
    requires (rows == [] || WellCounted(rows)) && o.weight > 0.0
    ensures WellCounted(CountRoot(o.root, o.token, o.weight)(rows))
  {
    var f := CountToken(o.token, o.weight);
    UpdateKeys(rows, o.root, [], f);
    var r := Update(rows, o.root, [], f);
    assert r == CountRoot(o.root, o.token, o.weight)(rows);
    forall i | 0 <= i < |r| ensures |r[i].1| > 0 && Positive(r[i].1) && DistinctKeys(r[i].1) {
      if r[i] !in rows {
        if r[i].1 == f([]) {
          CreditPositive([], o.token, o.weight);
        } else {
          var j :| 0 <= j < |rows| && r[i].1 == f(rows[j].1);
          CreditPositive(rows[j].1, o.token, o.weight);
        }
      }
    }
  }

  lemma {:induction false} CountAllWellFormed<K, Root, A>(os: seq<Observation<K, Root, A>>)
    requires forall i :: 0 <= i < |os| ==> os[i].weight > 0.0
    ensures WellFormed(CountAll(os)) && (os != [] ==> |CountAll(os)| > 0)
  {
    if os != [] {
      var init, o := os[..|os| - 1], os[|os| - 1];
      CountAllWellFormed(init);
      CountWellFormed(CountAll(init), o);
      assert Count(CountAll(init), o) != [];
    }
  }

  // ------------------------------------------------------- the distribution is one

  lemma {:induction false} TableSumAppend<A>(s: Table<A>, t: Table<A>)
    ensures TableSum(s + t) == TableSum(s) + TableSum(t)
  {
    if s == [] {
      assert s + t == t;
    } else {
      TableSumAppend(s[1..], t);
      assert (s + t)[1..] == s[1..] + t;
    }
  }

  lemma {:induction false} ProbabilityIsTable<A>(t: Table<A>)
    ensures ProbabilitySum(t) == TableSum(t)
  {
    if t != [] {
      ProbabilityIsTable(t[..|t| - 1]);
      TableSumAppend(t[..|t| - 1], [t[|t| - 1]]);
      assert t == t[..|t| - 1] + [t[|t| - 1]];
      assert [t[|t| - 1]][1..] == [];
    }
  }

  lemma {:induction false} PositiveSum<A>(t: Table<A>)
    requires Positive(t)
    ensures t != [] ==> TableSum(t) > 0.0
    ensures forall i :: 0 <= i < |t| ==> t[i].1 <= TableSum(t)
  {
    if t != [] {
      PositiveSum(t[1..]);
      forall i | 0 <= i < |t| ensures t[i].1 <= TableSum(t) {
        if i > 0 { assert t[i] == t[1..][i - 1]; }
      }
    }
  }

  lemma Quotients(a: real, b: real, total: real, n: nat)
    requires total > 0.0 && n > 0
    ensures (a + b) / total / (n as real) == a / total / (n as real) + b / total / (n as real)
    ensures b > 0.0 ==> b / total / (n as real) > 0.0
  {
    assert (a + b) / total == a / total + b / total;
  }

  lemma {:induction false} SpreadSums<A>(table: Table<A>, values: Table<A>, total: real, n: nat)
    requires total > 0.0 && n > 0 && Positive(table) && DistinctKeys(table) && Positive(values)
    ensures var r := Spread(table, values, total, n);
      && TableSum(r) == TableSum(table) + TableSum(values) / total / (n as real)
      && Positive(r) && DistinctKeys(r)
  {
    if values != [] {
      var init, x := values[..|values| - 1], values[|values| - 1];
      assert values == init + [x] && [x][1..] == [];
      SpreadSums(table, init, total, n);
      TableSumAppend(init, [x]);
      Quotients(TableSum(init), x.1, total, n);
      CreditSums((t: Token<A>) => true, Spread(table, init, total, n), x.0, x.1 / total / (n as real));
      CreditPositive(Spread(table, init, total, n), x.0, x.1 / total / (n as real));
    }
  }

  lemma {:induction false} BalancedSums<Root, A>(rows: seq<(Root, Table<A>)>, n: nat)
    requires n > 0
    requires forall i :: 0 <= i < |rows| ==> |rows[i].1| > 0 && Positive(rows[i].1) && TableSum(rows[i].1) != 0.0
    ensures TableSum(Balanced(rows, n)) == (|rows| as real) / (n as real)
    ensures Positive(Balanced(rows, n)) && DistinctKeys(Balanced(rows, n))
  {
    if rows != [] {
      var init, row := rows[..|rows| - 1], rows[|rows| - 1];
      BalancedSums(init, n);
      PositiveSum(row.1);
      SpreadSums(Balanced(init, n), row.1, TableSum(row.1), n);
      WholeShare(TableSum(row.1), |init|, n);
      assert |rows| == |init| + 1;
    }
  }

  lemma WholeShare(total: real, k: nat, n: nat)
    requires total > 0.0 && n > 0
    ensures (k as real) / (n as real) + total / total / (n as real) == ((k + 1) as real) / (n as real)
  {
    assert total / total == 1.0;
    assert ((k + 1) as real) == (k as real) + 1.0;
    assert ((k as real) + 1.0) / (n as real) == (k as real) / (n as real) + 1.0 / (n as real);
  }

  lemma {:induction false} InsertPairKeeps<A>(le: (Token<A>, Token<A>) -> bool, x: (Token<A>, real), s: Table<A>)
    ensures |InsertPair(le, x, s)| == |s| + 1
    ensures multiset(InsertPair(le, x, s)) == multiset(s) + multiset{x}
    ensures TableSum(InsertPair(le, x, s)) == TableSum(s) + x.1
  {
    if s == [] {
      assert [x][1..] == [];
    } else if le(s[0].0, x.0) {
      InsertPairKeeps(le, x, s[1..]);
      assert s == [s[0]] + s[1..];
      assert ([s[0]] + InsertPair(le, x, s[1..]))[1..] == InsertPair(le, x, s[1..]);
    } else {
      assert ([x] + s)[1..] == s;
    }
  }

  lemma {:induction false} SortTableKeeps<A>(le: (Token<A>, Token<A>) -> bool, s: Table<A>)
    ensures |SortTable(le, s)| == |s| && multiset(SortTable(le, s)) == multiset(s)
    ensures TableSum(SortTable(le, s)) == TableSum(s)
  {
    if s != [] {
      var init, x := s[..|s| - 1], s[|s| - 1];
      SortTableKeeps(le, init);
      InsertPairKeeps(le, x, SortTable(le, init));
      TableSumAppend(init, [x]);
      assert s == init + [x] && [x][1..] == [];
    }
  }

  lemma Permuted<A>(s: Table<A>, t: Table<A>)
    requires multiset(s) == multiset(t) && Positive(s) && DistinctKeys(s)
    ensures Positive(t) && DistinctKeys(t)
  {
    forall i | 0 <= i < |t| ensures t[i] in s {
      assert t[i] in multiset(t);
    }
    forall i, j | 0 <= i < j < |t| ensures t[i].0 != t[j].0 {
      assert t[i] in multiset(t) && t[j] in multiset(t);
      if t[i] == t[j] {
        TwicePresent(t, i, j);
        OnceKeyed(s, t[i]);
      }
    }
  }

  lemma {:induction false} OnceKeyed<A>(s: Table<A>, x: (Token<A>, real))
    requires DistinctKeys(s)
    ensures multiset(s)[x] <= 1
  {
    if s != [] {
      OnceKeyed(s[1..], x);
      assert s == [s[0]] + s[1..];
      if s[0] == x {
        assert x !in s[1..];
      }
    }
  }

  /** The learned distribution of one context. */
  function Distribution<Root, A(==)>(le: (Token<A>, Token<A>) -> bool, rows: seq<(Root, Table<A>)>): Table<A>
    requires WellCounted(rows)
  {
    assert forall i :: 0 <= i < |rows| ==> TableSum(rows[i].1) != 0.0 by {
      forall i | 0 <= i < |rows| ensures TableSum(rows[i].1) != 0.0 { PositiveSum(rows[i].1); }
    }
    SortTable(le, Balanced(rows, |rows|))
  }

  lemma SelfQuotient(n: nat)
    requires n > 0
    ensures (n as real) / (n as real) == 1.0
  {
  }

  /** A learned context sums to exactly 1 over distinct tokens, each of probability in (0, 1]. */
  lemma DistributionIsOne<Root, A>(le: (Token<A>, Token<A>) -> bool, rows: seq<(Root, Table<A>)>)
    requires WellCounted(rows)
    ensures var d := Distribution(le, rows);
      && d != [] && ProbabilitySum(d) == 1.0 && Beam.DistinctTokens(d)
      && (forall i :: 0 <= i < |d| ==> 0.0 < d[i].1 <= 1.0)
  {
    hide SortTable, Balanced, ProbabilitySum;
    forall i | 0 <= i < |rows| ensures TableSum(rows[i].1) != 0.0 { PositiveSum(rows[i].1); }
    var b := Balanced(rows, |rows|);
    BalancedSums(rows, |rows|);
    SelfQuotient(|rows|);
    SortTableKeeps(le, b);
    Permuted(b, SortTable(le, b));
    ProbabilityIsTable(SortTable(le, b));
    PositiveSum(SortTable(le, b));
  }

  // ------------------------------------------------------------------- the loops

  function Distributions<K, Root, A(==)>(le: (Token<A>, Token<A>) -> bool,
      counts: Counts<K, Root, A>): seq<(K, Table<A>)>
    requires WellFormed(counts)
  {
    if counts == [] then []
    else
      var n := |counts| - 1;
      Distributions(le, counts[..n]) + [(counts[n].0, Distribution(le, counts[n].1))]
  }

  /** What is learned from the branches, or why it is refused. */
  function Learn<D, S, T, Root(==), A(==), K(==)>(r: Reader<D, S, T, A, K>, le: (Token<A>, Token<A>) -> bool,
      branches: seq<Branch<D, Root>>): Fitted<seq<(K, Table<A>)>>
    requires forall i :: 0 <= i < |branches| && branches[i].fixed ==> branches[i].weight > 0.0
  {
    var train := Selected(branches);
    if train == [] then Refused(NoTrainingRoots)
    else
      var counts := CountAll(Observations(r, train));
      if |counts| > MAX_CONTEXTS then Refused(ContextLimit)
      else
        WeightsPositive(r, branches);
        CountAllWellFormed(Observations(r, train));
        var ds := Distributions(le, counts);
        if exists i :: 0 <= i < |ds| && |ds[i].1| > MAX_CHOICES then Refused(ActionLimit) else Learned(ds)
  }

  lemma {:induction false} TraceWeights<D, S, T, Root, A, K>(r: Reader<D, S, T, A, K>, b: Branch<D, Root>, state: S,
      i: nat)
    requires i <= |r.steps(b.record)|
    ensures forall o :: o in Trace(r, b, state, i) ==> o.weight == b.weight
    ensures Trace(r, b, state, i) != []
    decreases |r.steps(b.record)| - i
  {
    if i < |r.steps(b.record)| {
      TraceWeights(r, b, r.follow(b.record, state, r.steps(b.record)[i]), i + 1);
    }
  }

  lemma {:induction false} ObservationWeights<D, S, T, Root, A, K>(r: Reader<D, S, T, A, K>,
      train: seq<Branch<D, Root>>)
    requires forall b :: b in train ==> b.weight > 0.0
    ensures forall o :: o in Observations(r, train) ==> o.weight > 0.0
    ensures train != [] ==> Observations(r, train) != []
  {
    if train != [] {
      var n := |train| - 1;
      ObservationWeights(r, train[..n]);
      TraceWeights(r, train[n], r.start(train[n].record), 0);
    }
  }

  lemma {:induction false} SelectedWeights<D, Root>(branches: seq<Branch<D, Root>>)
    requires forall i :: 0 <= i < |branches| && branches[i].fixed ==> branches[i].weight > 0.0
    ensures forall b :: b in Selected(branches) ==> b.weight > 0.0
  {
    if branches != [] {
      SelectedWeights(branches[..|branches| - 1]);
    }
  }

  lemma WeightsPositive<D, S, T, Root, A, K>(r: Reader<D, S, T, A, K>, branches: seq<Branch<D, Root>>)
    requires forall i :: 0 <= i < |branches| && branches[i].fixed ==> branches[i].weight > 0.0
    ensures forall i :: 0 <= i < |Observations(r, Selected(branches))| ==>
      Observations(r, Selected(branches))[i].weight > 0.0
    ensures Selected(branches) != [] ==> Observations(r, Selected(branches)) != []
  {
    SelectedWeights(branches);
    ObservationWeights(r, Selected(branches));
  }

  lemma CountOne<K, Root, A>(os: seq<Observation<K, Root, A>>, o: Observation<K, Root, A>)
    ensures CountAll(os + [o]) == Count(CountAll(os), o)
  {
    assert (os + [o])[..|os|] == os;
  }

  /** Contexts are never forgotten, so the running check meets the limit exactly when the total does. */
  lemma {:induction false} CountsGrow<K, Root, A>(os: seq<Observation<K, Root, A>>, more: seq<Observation<K, Root, A>>)
    ensures |CountAll(os)| <= |CountAll(os + more)|
  {
    if more == [] {
      assert os + more == os;
    } else {
      var init, o := more[..|more| - 1], more[|more| - 1];
      CountsGrow(os, init);
      assert os + more == (os + init) + [o];
      CountOne(os + init, o);
      UpdateKeys(CountAll(os + init), o.key, [], CountRoot(o.root, o.token, o.weight));
    }
  }

  lemma {:induction false} ObservationsSplit<D, S, T, Root, A, K>(r: Reader<D, S, T, A, K>,
      train: seq<Branch<D, Root>>, n: nat)
    returns (more: seq<Observation<K, Root, A>>)
    requires n <= |train|
    ensures Observations(r, train) == Observations(r, train[..n]) + more
  {
    if n == |train| {
      more := [];
      assert train[..n] == train;
    } else {
      var k := |train| - 1;
      more := ObservationsSplit(r, train[..k], n);
      assert train[..k][..n] == train[..n];
      more := more + Trace(r, train[k], r.start(train[k].record), 0);
    }
  }

  lemma TraceStep<D, S, T, Root, A, K>(r: Reader<D, S, T, A, K>, b: Branch<D, Root>, state: S, i: nat)
    requires i <= |r.steps(b.record)|
    ensures i < |r.steps(b.record)| ==>
      var step := r.steps(b.record)[i]; var token := r.encode(b.record, state, step);
      Trace(r, b, state, i) == [Observation(r.context(b.record, state), b.root, token, b.weight)]
        + (if token == Unknown then [] else Trace(r, b, r.follow(b.record, state, step), i + 1))
    ensures i == |r.steps(b.record)| ==>
      Trace(r, b, state, i)
        == [Observation(r.context(b.record, state), b.root, if r.completed(b.record) then End else Unknown, b.weight)]
  {
  }

  /** One branch, step by step, stopping at an unknown step. */
  method CountBranch<D, S, T, Root(==), A(==), K(==)>(r: Reader<D, S, T, A, K>, b: Branch<D, Root>,
      counts0: Counts<K, Root, A>, ghost done: seq<Observation<K, Root, A>>)
    returns (counts: Counts<K, Root, A>, refused: bool)
    requires counts0 == CountAll(done) && |counts0| <= MAX_CONTEXTS
    ensures !refused ==> counts == CountAll(done + Trace(r, b, r.start(b.record), 0)) && |counts| <= MAX_CONTEXTS
    ensures refused ==> |CountAll(done + Trace(r, b, r.start(b.record), 0))| > MAX_CONTEXTS
  {
    hide Count, CountAll, Trace;
    counts := counts0;
    var steps, state, unknown, i := r.steps(b.record), r.start(b.record), false, 0;
    ghost var full, seen := done + Trace(r, b, state, 0), done;
    while i < |steps| && !unknown
      invariant i <= |steps| && |counts| <= MAX_CONTEXTS
      invariant counts == CountAll(seen)
      invariant full == seen + (if unknown then [] else Trace(r, b, state, i))
      decreases |steps| - i + (if unknown then 0 else 1)
    {
      TraceStep(r, b, state, i);
      var token := r.encode(b.record, state, steps[i]);
      var o := Observation(r.context(b.record, state), b.root, token, b.weight);
      ghost var rest := if token == Unknown then [] else Trace(r, b, r.follow(b.record, state, steps[i]), i + 1);
      assert full == (seen + [o]) + rest;
      CountOne(seen, o);
      counts, seen := Count(counts, o), seen + [o];
      if |counts| > MAX_CONTEXTS {
        CountsGrow(seen, rest);
        return counts, true;
      }
      if token == Unknown {
        unknown := true;
      } else {
        state, i := r.follow(b.record, state, steps[i]), i + 1;
      }
    }
    if !unknown {
      TraceStep(r, b, state, i);
      var o := Observation(r.context(b.record, state), b.root, if r.completed(b.record) then End
        else Unknown, b.weight);
      assert full == seen + [o];
      CountOne(seen, o);
      counts := Count(counts, o);
    } else {
      assert full == seen;
    }
    refused := |counts| > MAX_CONTEXTS;
  }

  method Fit<D, S, T, Root(==), A(==), K(==)>(r: Reader<D, S, T, A, K>, le: (Token<A>, Token<A>) -> bool,
      branches: seq<Branch<D, Root>>)
    returns (f: Fitted<seq<(K, Table<A>)>>)
    requires forall i :: 0 <= i < |branches| && branches[i].fixed ==> branches[i].weight > 0.0
    ensures f == Learn(r, le, branches)
  {
    hide CountAll, Observations, Distributions, WellFormed;
    var train := Selected(branches);
    assert Observations(r, train[..0]) == [] by { NothingObserved(r, train); }
    if train == [] {
      return Refused(NoTrainingRoots);
    }
    var counts: Counts<K, Root, A> := [];
    NothingCounted<K, Root, A>();
    for n := 0 to |train|
      invariant counts == CountAll(Observations(r, train[..n])) && |counts| <= MAX_CONTEXTS
    {
      assert Observations(r, train[..n + 1])
        == Observations(r, train[..n]) + Trace(r, train[n], r.start(train[n].record), 0) by {
        ObservedNext(r, train, n);
      }
      var refused;
      counts, refused := CountBranch(r, train[n], counts, Observations(r, train[..n]));
      if refused {
        ghost var more := ObservationsSplit(r, train, n + 1);
        CountsGrow(Observations(r, train[..n + 1]), more);
        return Refused(ContextLimit);
      }
    }
    assert train[..|train|] == train;
    WeightsPositive(r, branches);
    CountAllWellFormed(Observations(r, train));
    var learned, refused := DistributeAll(le, counts);
    f := if refused then Refused(ActionLimit) else Learned(learned);
  }

  /** The loop over the contexts, stopping at one with too many choices. */
  method DistributeAll<K(==), Root(==), A(==)>(le: (Token<A>, Token<A>) -> bool, counts: Counts<K, Root, A>)
    returns (learned: seq<(K, Table<A>)>, refused: bool)
    requires WellFormed(counts)
    ensures !refused ==> learned == Distributions(le, counts) && forall j :: 0 <= j < |learned| ==>
      |learned[j].1| <= MAX_CHOICES
    ensures refused ==> exists j ::
      0 <= j < |Distributions(le, counts)| && |Distributions(le, counts)[j].1| > MAX_CHOICES
  {
    hide Distribution, WellCounted;
    learned, refused := [], false;
    for i := 0 to |counts|
      invariant learned == Distributions(le, counts[..i])
      invariant |learned| == i && forall j :: 0 <= j < i ==> |learned[j].1| <= MAX_CHOICES
    {
      assert counts[..i + 1][..i] == counts[..i];
      var d := Distribution(le, counts[i].1);
      if |d| > MAX_CHOICES {
        DistributionAt(le, counts, i);
        return learned, true;
      }
      learned := learned + [(counts[i].0, d)];
    }
    assert counts[..|counts|] == counts;
  }

  lemma NothingObserved<D, S, T, Root, A, K>(r: Reader<D, S, T, A, K>, train: seq<Branch<D, Root>>)
    ensures Observations(r, train[..0]) == []
  {
  }

  lemma ObservedNext<D, S, T, Root, A, K>(r: Reader<D, S, T, A, K>, train: seq<Branch<D, Root>>, n: nat)
    requires n < |train|
    ensures Observations(r, train[..n + 1])
      == Observations(r, train[..n]) + Trace(r, train[n], r.start(train[n].record), 0)
  {
    assert train[..n + 1][..n] == train[..n];
  }

  lemma NothingCounted<K, Root, A>()
    ensures CountAll<K, Root, A>([]) == []
  {
  }

  lemma {:induction false} DistributionAt<K, Root, A>(le: (Token<A>, Token<A>) -> bool, counts: Counts<K, Root, A>,
      i: nat)
    requires WellFormed(counts)
    ensures |Distributions(le, counts)| == |counts|
    ensures i < |counts| ==> Distributions(le, counts)[i] == (counts[i].0, Distribution(le, counts[i].1))
  {
    if counts != [] {
      var n := |counts| - 1;
      DistributionAt(le, counts[..n], i);
    }
  }

  // --------------------------------------------------------------- what it yields

  function ToMap<Key, V>(table: seq<(Key, V)>): map<Key, V> {
    if table == [] then map[] else ToMap(table[..|table| - 1])[table[|table| - 1].0 := table[|table| - 1].1]
  }

  lemma {:induction false} ToMapOf<Key, V>(table: seq<(Key, V)>)
    ensures |ToMap(table)| <= |table| && (table != [] ==> |ToMap(table)| > 0)
    ensures forall k :: k in ToMap(table) ==> exists i :: 0 <= i < |table| && table[i] == (k, ToMap(table)[k])
  {
    if table != [] {
      var n := |table| - 1;
      ToMapOf(table[..n]);
      var m := ToMap(table[..n]);
      assert m[table[n].0 := table[n].1].Keys == m.Keys + {table[n].0};
      forall k | k in ToMap(table) ensures exists i :: 0 <= i < |table| && table[i] == (k, ToMap(table)[k]) {
        if k == table[n].0 {
          assert table[n] == (k, ToMap(table)[k]);
        } else {
          var i :| 0 <= i < n && table[..n][i] == (k, m[k]);
          assert table[i] == (k, ToMap(table)[k]);
        }
      }
    }
  }

  /** The table of any counted contexts within the limits. */
  lemma LearnedTable<K, Root, A>(le: (Token<A>, Token<A>) -> bool, counts: Counts<K, Root, A>,
      table: map<K, seq<(Token<A>, real)>>)
    requires WellFormed(counts) && 1 <= |counts| <= MAX_CONTEXTS
    requires forall i :: 0 <= i < |Distributions(le, counts)| ==> |Distributions(le, counts)[i].1| <= MAX_CHOICES
    requires table == ToMap(Distributions(le, counts))
    ensures AcceptedTable(table) && forall key :: key in table ==> ProbabilitySum(table[key]) == 1.0
  {
    hide Distributions, ToMap, ValidChoices, WellFormed, ProbabilitySum;
    var ds := Distributions(le, counts);
    DistributionAt(le, counts, 0);
    ToMapOf(ds);
    forall key | key in table ensures ValidChoices(table[key]) && ProbabilitySum(table[key]) == 1.0 {
      var i :| 0 <= i < |ds| && ds[i] == (key, table[key]);
      LearnedChoices(le, counts, i);
    }
  }

  lemma LearnedChoices<K, Root, A>(le: (Token<A>, Token<A>) -> bool, counts: Counts<K, Root, A>, i: nat)
    requires WellFormed(counts) && i < |counts| == |Distributions(le, counts)|
    requires |Distributions(le, counts)[i].1| <= MAX_CHOICES
    ensures var d := Distributions(le, counts)[i].1; ValidChoices(d) && ProbabilitySum(d) == 1.0
  {
    hide Distributions, Distribution, ProbabilitySum;
    DistributionAt(le, counts, i);
    DistributionIsOne(le, counts[i].1);
  }

  lemma OnesAreNormalised<S(!new), P, A, R, K>(w: World<S, P, A, R, K>)
    requires forall key :: key in w.transitions ==> ProbabilitySum(w.transitions[key]) == 1.0
    ensures Normalised(w)
  {
    hide ProbabilitySum;
    UnknownSum<A>();
  }

  /** Whatever was learned, the constructor accepts its transitions, and every context is exactly
      normalised: so a fitted model's reported risks are exact. */
  lemma FittedIsNormalised<D, S, T, Root, A, K, St(!new), P, R>(r: Reader<D, S, T, A, K>,
      le: (Token<A>, Token<A>) -> bool, branches: seq<Branch<D, Root>>, w: World<St, P, A, R, K>)
    requires forall i :: 0 <= i < |branches| && branches[i].fixed ==> branches[i].weight > 0.0
    requires Learn(r, le, branches).Learned? && w.transitions == ToMap(Learn(r, le, branches).value)
    ensures Accepted(w) && Normalised(w)
  {
    hide Distributions, CountAll, ToMap, AcceptedTable, Normalised, ProbabilitySum, Observations, Selected, WellFormed;
    var train := Selected(branches);
    var counts := CountAll(Observations(r, train));
    WeightsPositive(r, branches);
    CountAllWellFormed(Observations(r, train));
    SomethingCounted(r, branches);
    DistributionAt(le, counts, 0);
    LearnedTable(le, counts, w.transitions);
    OnesAreNormalised(w);
  }

  lemma SomethingCounted<D, S, T, Root, A, K>(r: Reader<D, S, T, A, K>, branches: seq<Branch<D, Root>>)
    requires forall i :: 0 <= i < |branches| && branches[i].fixed ==> branches[i].weight > 0.0
    requires Selected(branches) != []
    ensures CountAll(Observations(r, Selected(branches))) != []
  {
  }

  // ---------------------------------------------------- roots are balanced by weight

  function Rescale<D, Root(==)>(branches: seq<Branch<D, Root>>, root: Root, c: real): seq<Branch<D, Root>> {
    if branches == [] then []
    else
      var b := branches[|branches| - 1];
      Rescale(branches[..|branches| - 1], root, c) + [b.(weight := Times(Scaled(b.root, root, c), b.weight))]
  }

  function Scaled<Root(==)>(r: Root, root: Root, c: real): real {
    if r == root then c else 1.0
  }

  function Times(c: real, x: real): real { c * x }

  function ScaleTable<A>(values: Table<A>, c: real): Table<A> {
    if values == [] then [] else [(values[0].0, Times(c, values[0].1))] + ScaleTable(values[1..], c)
  }

  function ScaleRows<Root(==), A>(rows: seq<(Root, Table<A>)>, root: Root, c: real): seq<(Root, Table<A>)> {
    if rows == [] then []
    else [(rows[0].0, ScaleTable(rows[0].1, Scaled(rows[0].0, root, c)))] + ScaleRows(rows[1..], root, c)
  }

  function ScaleCounts<K, Root(==), A>(counts: Counts<K, Root, A>, root: Root, c: real): Counts<K, Root, A> {
    if counts == [] then []
    else [(counts[0].0, ScaleRows(counts[0].1, root, c))] + ScaleCounts(counts[1..], root, c)
  }

  function ScaleObservations<K, Root(==), A>(os: seq<Observation<K, Root, A>>, root: Root,
      c: real): seq<Observation<K, Root, A>> {
    if os == [] then []
    else
      var o := os[|os| - 1];
      ScaleObservations(os[..|os| - 1], root, c) + [o.(weight := Times(Scaled(o.root, root, c), o.weight))]
  }

  lemma {:induction false} CreditScales<A>(values: Table<A>, t: Token<A>, w: real, c: real)
    ensures Credit(ScaleTable(values, c), t, Times(c, w)) == ScaleTable(Credit(values, t, w), c)
  {
    if values == [] {
    } else if values[0].0 == t {
      assert Times(c, values[0].1 + w) == Times(c, values[0].1) + Times(c, w) by { Distribute(c, values[0].1, w); }
      var rest := ScaleTable(values[1..], c);
      assert ScaleTable(values, c)[1..] == rest;
      var credited := [(t, values[0].1 + w)] + values[1..];
      assert credited[1..] == values[1..];
      assert ScaleTable(credited, c) == [(t, Times(c, values[0].1 + w))] + rest;
    } else {
      CreditScales(values[1..], t, w, c);
      assert ([values[0]] + Credit(values[1..], t, w))[1..] == Credit(values[1..], t, w);
    }
  }

  lemma {:induction false} RowsScale<Root, A>(rows: seq<(Root, Table<A>)>, r: Root, t: Token<A>, w: real, root: Root,
      c: real)
    ensures Update(ScaleRows(rows, root, c), r, [], CountToken(t, Times(Scaled(r, root, c), w)))
         == ScaleRows(Update(rows, r, [], CountToken(t, w)), root, c)
  {
    hide Times;
    if rows == [] {
      CreditScales([], t, w, Scaled(r, root, c));
      assert [(r, CountToken(t, w)([]))][1..] == [];
    } else if rows[0].0 == r {
      CreditScales(rows[0].1, t, w, Scaled(r, root, c));
      var rest := ScaleRows(rows[1..], root, c);
      assert ScaleRows(rows, root, c)[1..] == rest;
      var updated := [(r, CountToken(t, w)(rows[0].1))] + rows[1..];
      assert updated[1..] == rows[1..];
      assert ScaleRows(updated, root, c) == [(r, ScaleTable(Credit(rows[0].1, t, w), Scaled(r, root, c)))] + rest;
    } else {
      RowsScale(rows[1..], r, t, w, root, c);
      var rest := Update(rows[1..], r, [], CountToken(t, w));
      assert ([rows[0]] + rest)[1..] == rest;
    }
  }

  lemma {:induction false} CountScales<K, Root, A>(counts: Counts<K, Root, A>, o: Observation<K, Root, A>, root: Root,
      c: real)
    ensures Count(ScaleCounts(counts, root, c), o.(weight := Times(Scaled(o.root, root, c), o.weight)))
      == ScaleCounts(Count(counts, o), root, c)
  {
    hide Times;
    var f, g := CountRoot(o.root, o.token, o.weight),
      CountRoot(o.root, o.token, Times(Scaled(o.root, root, c), o.weight));
    if counts == [] {
      RowsScale([], o.root, o.token, o.weight, root, c);
      assert g([]) == Update(ScaleRows([], root, c), o.root, [],
        CountToken(o.token, Times(Scaled(o.root, root, c), o.weight)));
      assert [(o.key, f([]))][1..] == [];
    } else if counts[0].0 == o.key {
      RowsScale(counts[0].1, o.root, o.token, o.weight, root, c);
      var rest := ScaleCounts(counts[1..], root, c);
      assert ScaleCounts(counts, root, c)[1..] == rest;
      var updated := [(o.key, f(counts[0].1))] + counts[1..];
      assert updated[1..] == counts[1..];
      assert ScaleCounts(updated, root, c) == [(o.key, ScaleRows(f(counts[0].1), root, c))] + rest;
    } else {
      CountScales(counts[1..], o, root, c);
      var rest := Count(counts[1..], o);
      assert ([counts[0]] + rest)[1..] == rest;
    }
  }

  lemma {:induction false} CountAllScales<K, Root, A>(os: seq<Observation<K, Root, A>>, root: Root, c: real)
    ensures CountAll(ScaleObservations(os, root, c)) == ScaleCounts(CountAll(os), root, c)
  {
    hide Count, Times;
    if os != [] {
      var init, o := os[..|os| - 1], os[|os| - 1];
      CountAllScales(init, root, c);
      CountScales(CountAll(init), o, root, c);
      var o' := o.(weight := Times(Scaled(o.root, root, c), o.weight));
      CountOne(ScaleObservations(init, root, c), o');
      assert ScaleObservations(os, root, c) == ScaleObservations(init, root, c) + [o'];
      CountOne(init, o);
      assert os == init + [o];
    }
  }

  lemma {:induction false} ScaleTableAt<A>(values: Table<A>, c: real, i: nat)
    ensures |ScaleTable(values, c)| == |values|
    ensures i < |values| ==> ScaleTable(values, c)[i] == (values[i].0, Times(c, values[i].1))
    ensures TableSum(ScaleTable(values, c)) == Times(c, TableSum(values))
  {
    if values != [] {
      ScaleTableAt(values[1..], c, if i == 0 then 0 else i - 1);
      Distribute(c, values[0].1, TableSum(values[1..]));
    }
  }

  lemma ScaleTablePrefix<A>(values: Table<A>, c: real, k: nat)
    requires k <= |values|
    ensures |ScaleTable(values, c)| == |values| && ScaleTable(values, c)[..k] == ScaleTable(values[..k], c)
  {
    ScaleTableAt(values, c, 0);
    ScaleTableAt(values[..k], c, 0);
    forall i | 0 <= i < k ensures ScaleTable(values, c)[i] == ScaleTable(values[..k], c)[i] {
      ScaleTableAt(values, c, i);
      ScaleTableAt(values[..k], c, i);
    }
  }

  lemma SameShare(c: real, v: real, total: real)
    requires c > 0.0 && total > 0.0
    ensures Times(c, total) > 0.0 && Times(c, v) / Times(c, total) == v / total
  {
    var q := v / total;
    assert v == q * total;
    assert c * v == q * (c * total);
    assert (q * (c * total)) / (c * total) == q;
  }

  lemma {:induction false} SpreadScales<A>(table: Table<A>, values: Table<A>, c: real, total: real, n: nat)
    requires c > 0.0 && total > 0.0 && n > 0
    ensures Times(c, total) > 0.0
    ensures Spread(table, ScaleTable(values, c), Times(c, total), n) == Spread(table, values, total, n)
  {
    hide Times;
    SameShare(c, total, total);
    if values != [] {
      var k := |values| - 1;
      SpreadScales(table, values[..k], c, total, n);
      ScaleTablePrefix(values, c, k);
      ScaleTableAt(values, c, k);
      SameShare(c, values[k].1, total);
    }
  }

  lemma {:induction false} ScaleRowsAt<Root, A>(rows: seq<(Root, Table<A>)>, root: Root, c: real, i: nat)
    ensures |ScaleRows(rows, root, c)| == |rows|
    ensures i < |rows| ==> ScaleRows(rows, root, c)[i] == (rows[i].0, ScaleTable(rows[i].1, Scaled(rows[i].0, root, c)))
  {
    if rows != [] {
      ScaleRowsAt(rows[1..], root, c, if i == 0 then 0 else i - 1);
    }
  }

  lemma ScaleRowsPrefix<Root, A>(rows: seq<(Root, Table<A>)>, root: Root, c: real, k: nat)
    requires k <= |rows|
    ensures |ScaleRows(rows, root, c)| == |rows| && ScaleRows(rows, root, c)[..k] == ScaleRows(rows[..k], root, c)
  {
    ScaleRowsAt(rows, root, c, 0);
    ScaleRowsAt(rows[..k], root, c, 0);
    forall i | 0 <= i < k ensures ScaleRows(rows, root, c)[i] == ScaleRows(rows[..k], root, c)[i] {
      ScaleRowsAt(rows, root, c, i);
      ScaleRowsAt(rows[..k], root, c, i);
    }
  }

  ghost predicate Countable<Root, A>(rows: seq<(Root, Table<A>)>) {
    forall i :: 0 <= i < |rows| ==> |rows[i].1| > 0 && Positive(rows[i].1)
  }

  lemma CountableSums<Root, A>(rows: seq<(Root, Table<A>)>)
    requires Countable(rows)
    ensures forall i :: 0 <= i < |rows| ==> TableSum(rows[i].1) > 0.0
  {
    forall i | 0 <= i < |rows| ensures TableSum(rows[i].1) > 0.0 { PositiveSum(rows[i].1); }
  }

  lemma ScaledSums<Root, A>(rows: seq<(Root, Table<A>)>, root: Root, c: real)
    requires Countable(rows) && c > 0.0
    ensures forall i :: 0 <= i < |ScaleRows(rows, root, c)| ==> TableSum(ScaleRows(rows, root, c)[i].1) > 0.0
  {
    CountableSums(rows);
    ScaleRowsAt(rows, root, c, 0);
    forall i | 0 <= i < |rows| ensures TableSum(ScaleRows(rows, root, c)[i].1) > 0.0 {
      ScaleRowsAt(rows, root, c, i);
      ScaleTableAt(rows[i].1, Scaled(rows[i].0, root, c), 0);
      SameShare(Scaled(rows[i].0, root, c), 0.0, TableSum(rows[i].1));
    }
  }

  lemma {:induction false} BalancedScales<Root, A>(rows: seq<(Root, Table<A>)>, root: Root, c: real, n: nat)
    requires Countable(rows) && c > 0.0 && n > 0
    ensures forall i :: 0 <= i < |rows| ==> TableSum(rows[i].1) != 0.0
    ensures forall i :: 0 <= i < |ScaleRows(rows, root, c)| ==> TableSum(ScaleRows(rows, root, c)[i].1) != 0.0
    ensures Balanced(ScaleRows(rows, root, c), n) == Balanced(rows, n)
  {
    hide Times;
    CountableSums(rows);
    ScaledSums(rows, root, c);
    if rows != [] {
      var k := |rows| - 1;
      BalancedScales(rows[..k], root, c, n);
      ScaleRowsPrefix(rows, root, c, k);
      ScaleRowsAt(rows, root, c, k);
      var f := Scaled(rows[k].0, root, c);
      ScaleTableAt(rows[k].1, f, 0);
      SpreadScales(Balanced(rows[..k], n), rows[k].1, f, TableSum(rows[k].1), n);
    }
  }

  lemma {:induction false} DistributionsScale<K, Root, A>(le: (Token<A>, Token<A>) -> bool,
      counts: Counts<K, Root, A>, root: Root, c: real)
    requires WellFormed(counts) && WellFormed(ScaleCounts(counts, root, c)) && c > 0.0
    ensures |ScaleCounts(counts, root, c)| == |counts|
    ensures Distributions(le, ScaleCounts(counts, root, c)) == Distributions(le, counts)
  {
    var scaled := ScaleCounts(counts, root, c);
    ScaleCountsAt(counts, root, c, 0);
    DistributionAt(le, counts, 0);
    DistributionAt(le, scaled, 0);
    forall i | 0 <= i < |counts| ensures Distributions(le, scaled)[i] == Distributions(le, counts)[i] {
      DistributionAt(le, counts, i);
      DistributionAt(le, scaled, i);
      ScaleCountsAt(counts, root, c, i);
      BalancedScales(counts[i].1, root, c, |counts[i].1|);
      ScaleRowsAt(counts[i].1, root, c, 0);
    }
  }

  lemma {:induction false} ScaleCountsAt<K, Root, A>(counts: Counts<K, Root, A>, root: Root, c: real, i: nat)
    ensures |ScaleCounts(counts, root, c)| == |counts|
    ensures i < |counts| ==> ScaleCounts(counts, root, c)[i] == (counts[i].0, ScaleRows(counts[i].1, root, c))
  {
    if counts != [] {
      ScaleCountsAt(counts[1..], root, c, if i == 0 then 0 else i - 1);
    }
  }

  lemma {:induction false} TraceScales<D, S, T, Root, A, K>(r: Reader<D, S, T, A, K>, b: Branch<D, Root>, w: real,
      state: S, i: nat)
    requires i <= |r.steps(b.record)|
    ensures |Trace(r, b.(weight := w), state, i)| == |Trace(r, b, state, i)|
    ensures forall j :: 0 <= j < |Trace(r, b, state, i)| ==>
              Trace(r, b, state, i)[j].root == b.root && Trace(r, b, state, i)[j].weight == b.weight
              && Trace(r, b.(weight := w), state, i)[j] == Trace(r, b, state, i)[j].(weight := w)
    decreases |r.steps(b.record)| - i
  {
    if i < |r.steps(b.record)| {
      TraceScales(r, b, w, r.follow(b.record, state, r.steps(b.record)[i]), i + 1);
    }
  }

  lemma {:induction false} ScaleObservationsAt<K, Root, A>(os: seq<Observation<K, Root, A>>, root: Root, c: real)
    ensures |ScaleObservations(os, root, c)| == |os|
    ensures forall i :: 0 <= i < |os| ==>
              ScaleObservations(os, root, c)[i] == os[i].(weight := Times(Scaled(os[i].root, root, c), os[i].weight))
  {
    if os != [] {
      ScaleObservationsAt(os[..|os| - 1], root, c);
    }
  }

  lemma {:induction false} RescaleAt<D, Root>(branches: seq<Branch<D, Root>>, root: Root, c: real)
    ensures |Rescale(branches, root, c)| == |branches|
    ensures forall i :: 0 <= i < |branches| ==>
              Rescale(branches, root, c)[i]
                == branches[i].(weight := Times(Scaled(branches[i].root, root, c), branches[i].weight))
  {
    if branches != [] {
      RescaleAt(branches[..|branches| - 1], root, c);
    }
  }

  function Reweighted<D, Root(==)>(b: Branch<D, Root>, root: Root, c: real): Branch<D, Root> {
    b.(weight := Times(Scaled(b.root, root, c), b.weight))
  }

  lemma RescaleOne<D, Root>(branches: seq<Branch<D, Root>>, b: Branch<D, Root>, root: Root, c: real)
    ensures Rescale(branches + [b], root, c) == Rescale(branches, root, c) + [Reweighted(b, root, c)]
  {
    assert (branches + [b])[..|branches|] == branches;
  }

  lemma SelectOne<D, Root>(branches: seq<Branch<D, Root>>, b: Branch<D, Root>)
    ensures Selected(branches + [b]) == Selected(branches) + (if b.train && b.fixed then [b] else [])
  {
    assert (branches + [b])[..|branches|] == branches;
  }

  lemma {:induction false} SelectedRescale<D, Root>(branches: seq<Branch<D, Root>>, root: Root, c: real)
    ensures Selected(Rescale(branches, root, c)) == Rescale(Selected(branches), root, c)
  {
    hide Times;
    if branches != [] {
      var init, b := branches[..|branches| - 1], branches[|branches| - 1];
      assert branches == init + [b];
      SelectedRescale(init, root, c);
      RescaleOne(init, b, root, c);
      SelectOne(init, b);
      SelectOne(Rescale(init, root, c), Reweighted(b, root, c));
      if b.train && b.fixed {
        RescaleOne(Selected(init), b, root, c);
      } else {
        assert Selected(init) + [] == Selected(init);
        assert Selected(Rescale(init, root, c)) + [] == Selected(Rescale(init, root, c));
      }
    }
  }

  lemma ScaleObservationsAppend<K, Root, A>(xs: seq<Observation<K, Root, A>>, ys: seq<Observation<K, Root, A>>,
      root: Root, c: real)
    ensures ScaleObservations(xs + ys, root, c) == ScaleObservations(xs, root, c) + ScaleObservations(ys, root, c)
  {
    hide Times;
    ScaleObservationsAt(xs, root, c);
    ScaleObservationsAt(ys, root, c);
    ScaleObservationsAt(xs + ys, root, c);
  }

  lemma TraceRescale<D, S, T, Root, A, K>(r: Reader<D, S, T, A, K>, b: Branch<D, Root>, root: Root, c: real, state: S)
    ensures Trace(r, Reweighted(b, root, c), state, 0) == ScaleObservations(Trace(r, b, state, 0), root, c)
  {
    hide Times, Trace;
    TraceScales(r, b, Times(Scaled(b.root, root, c), b.weight), state, 0);
    ScaleObservationsAt(Trace(r, b, state, 0), root, c);
  }

  lemma {:induction false} ObservationsRescale<D, S, T, Root, A, K>(r: Reader<D, S, T, A, K>,
      train: seq<Branch<D, Root>>, root: Root, c: real)
    ensures Observations(r, Rescale(train, root, c)) == ScaleObservations(Observations(r, train), root, c)
  {
    hide Times, Trace;
    if train != [] {
      var init, b := train[..|train| - 1], train[|train| - 1];
      assert train == init + [b];
      ObservationsRescale(r, init, root, c);
      RescaleOne(init, b, root, c);
      var scaled := Rescale(init, root, c);
      assert (scaled + [Reweighted(b, root, c)])[..|scaled|] == scaled;
      TraceRescale(r, b, root, c, r.start(b.record));
      ScaleObservationsAppend(Observations(r, init), Trace(r, b, r.start(b.record), 0), root, c);
    }
  }

  /** Repeating a root's evidence buys it nothing: scaling all branch weights of one root by a
      positive factor learns the same transitions, or is refused the same way. */
  lemma RootsAreBalanced<D, S, T, Root, A, K>(r: Reader<D, S, T, A, K>, le: (Token<A>, Token<A>) -> bool,
      branches: seq<Branch<D, Root>>, root: Root, c: real)
    requires c > 0.0
    requires forall i :: 0 <= i < |branches| && branches[i].fixed ==> branches[i].weight > 0.0
    ensures forall i :: 0 <= i < |Rescale(branches, root, c)| && Rescale(branches, root, c)[i].fixed ==>
      Rescale(branches, root, c)[i].weight > 0.0
    ensures Learn(r, le, Rescale(branches, root, c)) == Learn(r, le, branches)
  {
    hide Distributions, CountAll, Selected, Observations;
    RescaleAt(branches, root, c);
    forall i | 0 <= i < |branches| && branches[i].fixed ensures Rescale(branches, root, c)[i].weight > 0.0 {
      SameShare(Scaled(branches[i].root, root, c), 0.0, branches[i].weight);
    }
    SelectedRescale(branches, root, c);
    var train := Selected(branches);
    RescaleAt(train, root, c);
    var os := Observations(r, train);
    ObservationsRescale(r, train, root, c);
    CountAllScales(os, root, c);
    ScaleCountsAt(CountAll(os), root, c, 0);
    WeightsPositive(r, branches);
    WeightsPositive(r, Rescale(branches, root, c));
    CountAllWellFormed(os);
    CountAllWellFormed(ScaleObservations(os, root, c));
    DistributionsScale(le, CountAll(os), root, c);
  }
}
