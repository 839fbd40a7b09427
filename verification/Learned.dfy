/** What a learned model says, in terms of the observations alone: which contexts and tokens it knows,
    and each probability as a mean over roots of plain weight quotients. */
module Learned {
  import opened Rollout
  import opened Generate
  import opened Guarantees
  import opened Fit
  import opened Wrappers

  // ------------------------------------------------------------ plain sums and means

  /** The weight a root has observed in a context, and with one token there. */
  function WeightOf<K(==), Root(==), A>(os: seq<Observation<K, Root, A>>, key: K, root: Root): real {
    if os == [] then 0.0
    else
      var o := os[|os| - 1];
      WeightOf(os[..|os| - 1], key, root) + if o.key == key && o.root == root then o.weight else 0.0
  }

  function WeightTo<K(==), Root(==), A(==)>(os: seq<Observation<K, Root, A>>, key: K, root: Root,
      token: Token<A>): real {
    if os == [] then 0.0
    else
      var o := os[|os| - 1];
      WeightTo(os[..|os| - 1], key, root, token)
      + if o.key == key && o.root == root && o.token == token then o.weight else 0.0
  }

  /** The roots observed in a context. */
  ghost function RootsAt<K, Root, A>(os: seq<Observation<K, Root, A>>, key: K): set<Root> {
    set o | o in os && o.key == key :: o.root
  }

  ghost function SumOver<T>(s: set<T>, f: T -> real): real {
    if s == {} then 0.0
    else
      var x :| x in s;
      f(x) + SumOver(s - {x}, f)
  }

  /** The part of a root's weight in a context that goes to a token. */
  ghost function Share<K, Root, A>(os: seq<Observation<K, Root, A>>, key: K, token: Token<A>): Root -> real {
    (root: Root) =>
      if WeightOf(os, key, root) == 0.0 then 0.0 else WeightTo(os, key, root, token) / WeightOf(os, key, root)
  }

  /** The mean of the roots' shares. */
  ghost function MeanShare<K, Root, A>(os: seq<Observation<K, Root, A>>, key: K, token: Token<A>): real
    requires RootsAt(os, key) != {}
  {
    SumOver(RootsAt(os, key), Share(os, key, token)) / |RootsAt(os, key)| as real
  }

  lemma {:induction false} SumOverWithout<T>(s: set<T>, f: T -> real, x: T)
    requires x in s
    ensures SumOver(s, f) == f(x) + SumOver(s - {x}, f)
    decreases s
  {
    var y :| y in s && SumOver(s, f) == f(y) + SumOver(s - {y}, f);
    if y != x {
      SumOverWithout(s - {y}, f, x);
      SumOverWithout(s - {x}, f, y);
      assert s - {y} - {x} == s - {x} - {y};
    }
  }

  lemma {:induction false} SumOverAlike<T>(s: set<T>, f: T -> real, g: T -> real)
    requires forall x :: x in s ==> f(x) == g(x)
    ensures SumOver(s, f) == SumOver(s, g)
    decreases s
  {
    if s != {} {
      var x :| x in s;
      SumOverWithout(s, f, x);
      SumOverWithout(s, g, x);
      SumOverAlike(s - {x}, f, g);
    }
  }

  // ------------------------------------------------------------------- looking up

  function Find<Key(==), V>(table: seq<(Key, V)>, key: Key): Option<V> {
    if table == [] then None
    else if table[0].0 == key then Some(table[0].1)
    else Find(table[1..], key)
  }

  function Or<V>(found: Option<V>, blank: V): V {
    match found
    case None => blank
    case Some(v) => v
  }

  lemma {:induction false} FindUpdate<Key, V>(table: seq<(Key, V)>, key: Key, blank: V, f: V -> V, k: Key)
    ensures Find(Update(table, key, blank, f), k)
         == if k == key then Some(f(Or(Find(table, key), blank))) else Find(table, k)
  {
    if table != [] && table[0].0 != key {
      FindUpdate(table[1..], key, blank, f, k);
      assert Update(table, key, blank, f)[1..] == Update(table[1..], key, blank, f);
    } else if table != [] {
      assert Update(table, key, blank, f)[1..] == table[1..];
    }
  }

  lemma {:induction false} FindCredit<A>(table: Table<A>, t: Token<A>, w: real, k: Token<A>)
    ensures Find(Credit(table, t, w), k) == if k == t then Some(Or(Find(table, t), 0.0) + w) else Find(table, k)
  {
    if table != [] && table[0].0 != t {
      FindCredit(table[1..], t, w, k);
      assert Credit(table, t, w)[1..] == Credit(table[1..], t, w);
    } else if table != [] {
      assert Credit(table, t, w)[1..] == table[1..];
    }
  }

  lemma {:induction false} FindSnoc<Key, V>(init: seq<(Key, V)>, x: (Key, V), k: Key)
    ensures Find(init + [x], k)
         == if Find(init, k).Some? then Find(init, k) else if x.0 == k then Some(x.1) else None
  {
    if init == [] {
      assert [] + [x] == [x] && [x][1..] == [];
    } else {
      FindSnoc(init[1..], x, k);
      assert (init + [x])[1..] == init[1..] + [x];
    }
  }

  /** With distinct keys, finding is being an entry. */
  lemma {:induction false} FindIsEntry<Key, V>(table: seq<(Key, V)>, k: Key, v: V)
    requires forall i, j :: 0 <= i < j < |table| ==> table[i].0 != table[j].0
    ensures (k, v) in table <==> Find(table, k) == Some(v)
  {
    if table != [] {
      assert table == [table[0]] + table[1..];
      forall i, j | 0 <= i < j < |table[1..]| ensures table[1..][i].0 != table[1..][j].0 {
        assert table[i + 1].0 != table[j + 1].0;
      }
      FindIsEntry(table[1..], k, v);
      assert forall j :: 0 <= j < |table[1..]| ==> table[1..][j].0 != table[0].0;
    }
  }

  lemma {:induction false} FindsSome<Key, V>(table: seq<(Key, V)>, k: Key)
    ensures Find(table, k).Some? <==> exists i :: 0 <= i < |table| && table[i].0 == k
  {
    if table != [] {
      FindsSome(table[1..], k);
      if i :| 0 <= i < |table| && table[i].0 == k {
        if i > 0 { assert table[1..][i - 1].0 == k; }
      }
      if Find(table[1..], k).Some? {
        var i :| 0 <= i < |table[1..]| && table[1..][i].0 == k;
        assert table[i + 1].0 == k;
      }
    }
  }

  // --------------------------------------------------------------- what is counted

  function Rows<K(==), Root, A>(counts: Counts<K, Root, A>, key: K): seq<(Root, Table<A>)> {
    Or(Find(counts, key), [])
  }

  function Values<Root(==), A>(rows: seq<(Root, Table<A>)>, root: Root): Table<A> {
    Or(Find(rows, root), [])
  }

  function Amount<A(==)>(values: Table<A>, token: Token<A>): real {
    Or(Find(values, token), 0.0)
  }

  /** One more observation adds its weight in its own place and nowhere else. */
  lemma CountAt<K, Root, A>(counts: Counts<K, Root, A>, o: Observation<K, Root, A>, key: K, root: Root)
    ensures var before, after := Values(Rows(counts, key), root), Values(Rows(Count(counts, o), key), root);
      after == if key == o.key && root == o.root then Credit(before, o.token, o.weight) else before
  {
    var f := CountRoot(o.root, o.token, o.weight);
    FindUpdate(counts, o.key, [], f, key);
    if key == o.key {
      FindUpdate(Rows(counts, key), o.root, [], CountToken(o.token, o.weight), root);
    }
  }

  lemma {:induction false} CountsAre<K, Root, A>(os: seq<Observation<K, Root, A>>, key: K, root: Root,
      token: Token<A>)
    ensures Amount(Values(Rows(CountAll(os), key), root), token) == WeightTo(os, key, root, token)
    ensures TableSum(Values(Rows(CountAll(os), key), root)) == WeightOf(os, key, root)
  {
    hide Values, Rows, Amount, Count;
    if os == [] {
      NothingYet<K, Root, A>(key, root, token);
    } else {
      var init, o := os[..|os| - 1], os[|os| - 1];
      CountsAre(init, key, root, token);
      CountAt(CountAll(init), o, key, root);
      CreditedAt(Values(Rows(CountAll(init), key), root), o.token, o.weight, token);
    }
  }

  lemma NothingYet<K, Root, A>(key: K, root: Root, token: Token<A>)
    ensures var values := Values(Rows<K, Root, A>([], key), root); Amount(values, token) == 0.0 == TableSum(values)
  {
  }

  lemma CreditedAt<A>(values: Table<A>, t: Token<A>, w: real, token: Token<A>)
    ensures Amount(Credit(values, t, w), token) == Amount(values, token) + (if t == token then w else 0.0)
    ensures TableSum(Credit(values, t, w)) == TableSum(values) + w
  {
    FindCredit(values, t, w, token);
    CreditSums((x: Token<A>) => true, values, t, w);
  }

  /** A context is counted exactly when it was observed, and a root in it likewise. */
  lemma {:induction false} CountedKeys<K, Root, A>(os: seq<Observation<K, Root, A>>, key: K)
    ensures Find(CountAll(os), key).Some? <==> exists o :: o in os && o.key == key
    ensures forall root :: Find(Rows(CountAll(os), key), root).Some? <==> root in RootsAt(os, key)
  {
    if os != [] {
      var init, o := os[..|os| - 1], os[|os| - 1];
      assert os == init + [o];
      CountedKeys(init, key);
      var f := CountRoot(o.root, o.token, o.weight);
      FindUpdate(CountAll(init), o.key, [], f, key);
      forall root ensures Find(Rows(CountAll(os), key), root).Some? <==> root in RootsAt(os, key) {
        if key == o.key {
          FindUpdate(Rows(CountAll(init), key), o.root, [], CountToken(o.token, o.weight), root);
          assert RootsAt(os, key) == RootsAt(init, key) + {o.root};
        } else {
          assert RootsAt(os, key) == RootsAt(init, key);
        }
      }
    }
  }

  // ------------------------------------------------------------- one distribution

  lemma {:induction false} SpreadAt<A>(table: Table<A>, values: Table<A>, total: real, n: nat, token: Token<A>)
    requires total > 0.0 && n > 0 && DistinctKeys(values)
    ensures Amount(Spread(table, values, total, n), token)
         == Amount(table, token) + Amount(values, token) / total / (n as real)
  {
    if values == [] {
      ZeroShare(total, n);
    } else {
      var init, x := values[..|values| - 1], values[|values| - 1];
      assert values == init + [x];
      SpreadAt(table, init, total, n, token);
      FindSnoc(init, x, token);
      FindsSome(init, x.0);
      CreditedAt(Spread(table, init, total, n), x.0, x.1 / total / (n as real), token);
      if x.0 == token {
        ZeroShare(total, n);
      }
    }
  }

  lemma ZeroShare(total: real, n: nat)
    requires total > 0.0 && n > 0
    ensures 0.0 / total / (n as real) == 0.0
  {
    assert 0.0 / total == 0.0;
  }

  /** The shares of the rows, added up in order. */
  function RowShares<Root, A(==)>(rows: seq<(Root, Table<A>)>, token: Token<A>): real
    requires forall i :: 0 <= i < |rows| ==> TableSum(rows[i].1) != 0.0
  {
    if rows == [] then 0.0
    else
      var k := |rows| - 1;
      RowShares(rows[..k], token) + Amount(rows[k].1, token) / TableSum(rows[k].1)
  }

  lemma {:induction false} BalancedAt<Root, A>(rows: seq<(Root, Table<A>)>, n: nat, token: Token<A>)
    requires n > 0
    requires forall i :: 0 <= i < |rows| ==> |rows[i].1| > 0 && Positive(rows[i].1) && DistinctKeys(rows[i].1)
    requires forall i :: 0 <= i < |rows| ==> TableSum(rows[i].1) != 0.0
    ensures Amount(Balanced(rows, n), token) == RowShares(rows, token) / (n as real)
  {
    if rows == [] {
      assert 0.0 / (n as real) == 0.0;
    } else {
      var k := |rows| - 1;
      var (values, total) := (rows[k].1, TableSum(rows[k].1));
      BalancedAt(rows[..k], n, token);
      PositiveSum(values);
      SpreadAt(Balanced(rows[..k], n), values, total, n, token);
      AddQuotients(RowShares(rows[..k], token), Amount(values, token) / total, n as real);
    }
  }

  lemma AddQuotients(a: real, b: real, n: real)
    requires n > 0.0
    ensures (a + b) / n == a / n + b / n
  {
  }

  lemma {:induction false} SameFind<A>(s: Table<A>, t: Table<A>, token: Token<A>)
    requires multiset(s) == multiset(t) && DistinctKeys(s) && DistinctKeys(t)
    ensures Find(s, token) == Find(t, token)
  {
    forall v ensures (token, v) in s <==> (token, v) in t {
      assert (token, v) in multiset(s) <==> (token, v) in multiset(t);
    }
    forall v ensures Find(s, token) == Some(v) <==> Find(t, token) == Some(v) {
      FindIsEntry(s, token, v);
      FindIsEntry(t, token, v);
    }
    if Find(s, token).Some? {
      assert Find(t, token) == Some(Find(s, token).value);
    }
    if Find(t, token).Some? {
      assert Find(s, token) == Some(Find(t, token).value);
    }
  }

  /** What a distribution gives a token: nothing or the mean of the rows' shares. */
  lemma TokenGets<Root, A>(le: (Token<A>, Token<A>) -> bool, rows: seq<(Root, Table<A>)>, token: Token<A>)
    requires WellCounted(rows)
    ensures forall i :: 0 <= i < |rows| ==> TableSum(rows[i].1) != 0.0
    ensures var d := Distribution(le, rows);
      && DistinctKeys(d) && Positive(d)
      && Amount(d, token) == RowShares(rows, token) / (|rows| as real)
  {
    hide SortTable, Balanced, RowShares, Amount;
    forall i | 0 <= i < |rows| ensures TableSum(rows[i].1) != 0.0 { PositiveSum(rows[i].1); }
    var b := Balanced(rows, |rows|);
    BalancedSums(rows, |rows|);
    SortTableKeeps(le, b);
    Permuted(b, SortTable(le, b));
    BalancedAt(rows, |rows|, token);
    SameAmount(b, SortTable(le, b), token);
  }

  lemma SameAmount<A>(s: Table<A>, t: Table<A>, token: Token<A>)
    requires multiset(s) == multiset(t) && DistinctKeys(s) && DistinctKeys(t)
    ensures Amount(s, token) == Amount(t, token)
  {
    SameFind(s, t, token);
  }

  ghost function RootsOf<Root, A>(rows: seq<(Root, Table<A>)>): set<Root> {
    set x | x in rows :: x.0
  }

  lemma RootsOneMore<Root, A>(init: seq<(Root, Table<A>)>, last: (Root, Table<A>))
    requires forall i :: 0 <= i < |init| ==> init[i].0 != last.0
    ensures last.0 !in RootsOf(init) && RootsOf(init + [last]) == RootsOf(init) + {last.0}
    ensures RootsOf(init + [last]) - {last.0} == RootsOf(init)
  {
  }

  /** Rows in order and roots as a set add up to the same. */
  lemma {:induction false} SharesAsSet<Root, A>(rows: seq<(Root, Table<A>)>, token: Token<A>, f: Root -> real)
    requires forall i, j :: 0 <= i < j < |rows| ==> rows[i].0 != rows[j].0
    requires forall i :: 0 <= i < |rows| ==> TableSum(rows[i].1) != 0.0
    requires forall i :: 0 <= i < |rows| ==> f(rows[i].0) == Amount(rows[i].1, token) / TableSum(rows[i].1)
    ensures RowShares(rows, token) == SumOver(RootsOf(rows), f) && |RootsOf(rows)| == |rows|
  {
    hide Amount, TableSum, RootsOf, SumOver;
    if rows == [] {
      NoRoots<Root, A>(f);
    } else {
      var k := |rows| - 1;
      var (init, last) := (rows[..k], rows[k]);
      SharesAsSet(init, token, f);
      assert rows == init + [last];
      RootsOneMore(init, last);
      SumOverWithout(RootsOf(rows), f, last.0);
    }
  }

  lemma NoRoots<Root, A>(f: Root -> real)
    ensures RootsOf<Root, A>([]) == {} && SumOver({}, f) == 0.0
  {
  }

  /** The rows of a context are its roots, each with its own values. */
  lemma RowsAre<K, Root, A>(os: seq<Observation<K, Root, A>>, key: K)
    requires WellCounted(Rows(CountAll(os), key))
    ensures var rows := Rows(CountAll(os), key);
      RootsOf(rows) == RootsAt(os, key) && forall i :: 0 <= i < |rows| ==> rows[i].1 == Values(rows, rows[i].0)
  {
    hide Values, RootsOf, RootsAt, WellCounted, Rows, CountAll;
    var rows := Rows(CountAll(os), key);
    CountedKeys(os, key);
    RowsDistinct(rows);
    forall root | root in RootsAt(os, key) ensures root in RootsOf(rows) {
      assert Find(rows, root).Some?;
      FindsSome(rows, root);
      var i :| 0 <= i < |rows| && rows[i].0 == root;
      InRootsOf(rows, root);
    }
    forall root | root in RootsOf(rows) ensures root in RootsAt(os, key) {
      FindsSome(rows, root);
      InRootsOf(rows, root);
    }
    forall i | 0 <= i < |rows| ensures rows[i].1 == Values(rows, rows[i].0) {
      EntryIsValue(rows, i);
    }
  }

  lemma InRootsOf<Root, A>(rows: seq<(Root, Table<A>)>, root: Root)
    ensures root in RootsOf(rows) <==> exists i :: 0 <= i < |rows| && rows[i].0 == root
  {
    if i :| 0 <= i < |rows| && rows[i].0 == root {
      assert rows[i] in rows;
    }
  }

  lemma EntryIsValue<Root, A>(rows: seq<(Root, Table<A>)>, i: nat)
    requires i < |rows| && forall a, b :: 0 <= a < b < |rows| ==> rows[a].0 != rows[b].0
    ensures rows[i].1 == Values(rows, rows[i].0)
  {
    FindIsEntry(rows, rows[i].0, rows[i].1);
    assert rows[i] == (rows[i].0, rows[i].1);
    assert (rows[i].0, rows[i].1) in rows;
  }

  /** The learned distribution of an observed context is the mean of its roots' shares. */
  lemma ContextIsMean<K, Root, A>(le: (Token<A>, Token<A>) -> bool, os: seq<Observation<K, Root, A>>, key: K,
      token: Token<A>)
    requires WellCounted(Rows(CountAll(os), key))
    ensures RootsAt(os, key) != {}
    ensures Amount(Distribution(le, Rows(CountAll(os), key)), token) == MeanShare(os, key, token)
  {
    hide Amount, TableSum, Values, Distribution, RowShares, WellCounted, Rows, RootsOf, SumOver;
    var rows := Rows(CountAll(os), key);
    TokenGets(le, rows, token);
    RowsAre(os, key);
    RowsDistinct(rows);
    var f := Share(os, key, token);
    forall i | 0 <= i < |rows| ensures f(rows[i].0) == Amount(rows[i].1, token) / TableSum(rows[i].1) {
      CountsAre(os, key, rows[i].0, token);
    }
    SharesAsSet(rows, token, f);
  }

  lemma RowsDistinct<Root, A>(rows: seq<(Root, Table<A>)>)
    requires WellCounted(rows)
    ensures |rows| > 0 && forall i, j :: 0 <= i < j < |rows| ==> rows[i].0 != rows[j].0
  {
  }

  // --------------------------------------------------------------- signs of weights

  ghost predicate Weighty<K, Root, A>(os: seq<Observation<K, Root, A>>) {
    forall o :: o in os ==> o.weight > 0.0
  }

  ghost predicate Observed<K, Root, A>(os: seq<Observation<K, Root, A>>, key: K, root: Root, token: Token<A>) {
    exists o :: o in os && o.key == key && o.root == root && o.token == token
  }

  lemma {:induction false} WeightSigns<K, Root, A>(os: seq<Observation<K, Root, A>>, key: K, root: Root,
      token: Token<A>)
    requires Weighty(os)
    ensures 0.0 <= WeightTo(os, key, root, token) <= WeightOf(os, key, root)
    ensures WeightTo(os, key, root, token) > 0.0 <==> Observed(os, key, root, token)
  {
    if os != [] {
      var init, o := os[..|os| - 1], os[|os| - 1];
      assert os == init + [o];
      WeightSigns(init, key, root, token);
      assert o in os;
      if x :| x in os && x.key == key && x.root == root && x.token == token {
        assert x == o || x in init;
      }
    }
  }

  lemma {:induction false} SumOverSign<T>(s: set<T>, f: T -> real)
    requires forall x :: x in s ==> f(x) >= 0.0
    ensures SumOver(s, f) >= 0.0
    ensures SumOver(s, f) > 0.0 <==> exists x :: x in s && f(x) > 0.0
    decreases s
  {
    if s != {} {
      var x :| x in s;
      SumOverWithout(s, f, x);
      SumOverSign(s - {x}, f);
      if y :| y in s && f(y) > 0.0 {
        assert y == x || y in s - {x};
      }
    }
  }

  lemma QuotientSign(a: real, b: real)
    requires a >= 0.0 && b > 0.0
    ensures a / b >= 0.0 && (a / b > 0.0 <==> a > 0.0)
  {
    var q := a / b;
    assert q * b == a;
    TimesSign(q, b);
  }

  lemma TimesSign(q: real, b: real)
    requires b > 0.0
    ensures (q < 0.0 ==> q * b < 0.0) && (q > 0.0 ==> q * b > 0.0) && (q == 0.0 ==> q * b == 0.0)
  {
  }

  lemma ShareSign<K, Root, A>(os: seq<Observation<K, Root, A>>, key: K, root: Root, token: Token<A>)
    requires Weighty(os)
    ensures Share(os, key, token)(root) >= 0.0
    ensures Share(os, key, token)(root) > 0.0 <==> Observed(os, key, root, token)
  {
    hide WeightOf, WeightTo, Observed, Weighty;
    WeightSigns(os, key, root, token);
    if WeightOf(os, key, root) != 0.0 {
      QuotientSign(WeightTo(os, key, root, token), WeightOf(os, key, root));
    }
  }

  ghost predicate ObservedAt<K, Root, A>(os: seq<Observation<K, Root, A>>, key: K, token: Token<A>) {
    exists o :: o in os && o.key == key && o.token == token
  }

  /** A token's mean share is positive exactly when it was observed in the context. */
  lemma MeanSign<K, Root, A>(os: seq<Observation<K, Root, A>>, key: K, token: Token<A>)
    requires Weighty(os) && RootsAt(os, key) != {}
    ensures MeanShare(os, key, token) > 0.0 <==> ObservedAt(os, key, token)
  {
    hide SumOver, Share, Weighty;
    var roots, f := RootsAt(os, key), Share(os, key, token);
    forall x | x in roots ensures f(x) >= 0.0 { ShareSign(os, key, x, token); }
    SumOverSign(roots, f);
    QuotientSign(SumOver(roots, f), |roots| as real);
    if o :| o in os && o.key == key && o.token == token {
      assert Observed(os, key, o.root, token);
      assert o.root in roots;
      ShareSign(os, key, o.root, token);
    }
    if x :| x in roots && f(x) > 0.0 {
      ShareSign(os, key, x, token);
    }
  }

  // ------------------------------------------------------------------- the model

  ghost predicate Has<Key, V>(table: seq<(Key, V)>, key: Key) {
    exists i :: 0 <= i < |table| && table[i].0 == key
  }

  ghost predicate Met<K, Root, A>(os: seq<Observation<K, Root, A>>, key: K) {
    exists o :: o in os && o.key == key
  }

  /** One learned context: its tokens are those observed in it, each with its mean share. */
  ghost predicate IsContext<K, Root, A(!new)>(os: seq<Observation<K, Root, A>>, key: K, d: Table<A>) {
    && RootsAt(os, key) != {} && DistinctKeys(d)
    && (forall token :: Has(d, token) <==> ObservedAt(os, key, token))
    && (forall j :: 0 <= j < |d| ==> d[j].1 == MeanShare(os, key, d[j].0))
  }

  lemma ContextIs<K, Root, A(!new)>(le: (Token<A>, Token<A>) -> bool, os: seq<Observation<K, Root, A>>, key: K)
    requires Weighty(os) && WellCounted(Rows(CountAll(os), key))
    ensures IsContext(os, key, Distribution(le, Rows(CountAll(os), key)))
  {
    hide Distribution, MeanShare, Weighty, WellCounted, Rows, CountAll, RootsAt, Find, TableSum, ObservedAt, Amount;
    var rows := Rows(CountAll(os), key);
    var d := Distribution(le, rows);
    TokenGets(le, rows, End);
    ContextIsMean(le, os, key, End);
    forall token ensures Has(d, token) <==> ObservedAt(os, key, token) {
      ContextIsMean(le, os, key, token);
      MeanSign(os, key, token);
      FindsSome(d, token);
      FoundIsPositive(d, token);
    }
    forall j | 0 <= j < |d| ensures d[j].1 == MeanShare(os, key, d[j].0) {
      ContextIsMean(le, os, key, d[j].0);
      AmountOf(d, j);
    }
  }

  lemma FoundIsPositive<A>(d: Table<A>, token: Token<A>)
    requires Positive(d) && DistinctKeys(d)
    ensures Find(d, token).Some? <==> Amount(d, token) > 0.0
  {
    if Find(d, token).Some? {
      FindIsEntry(d, token, Find(d, token).value);
    }
  }

  lemma AmountOf<A>(d: Table<A>, j: nat)
    requires DistinctKeys(d) && j < |d|
    ensures Amount(d, d[j].0) == d[j].1
  {
    FindIsEntry(d, d[j].0, d[j].1);
    assert d[j] == (d[j].0, d[j].1);
    assert (d[j].0, d[j].1) in d;
  }

  lemma RowsOf<K, Root, A>(counts: Counts<K, Root, A>, i: nat)
    requires WellFormed(counts) && i < |counts|
    ensures Rows(counts, counts[i].0) == counts[i].1 && WellCounted(counts[i].1)
  {
    hide WellCounted;
    FindIsEntry(counts, counts[i].0, counts[i].1);
    assert counts[i] == (counts[i].0, counts[i].1);
    assert (counts[i].0, counts[i].1) in counts;
  }

  /** A model of some observations: it has exactly the contexts that were observed, each once. */
  ghost predicate IsModel<K(!new), Root, A(!new)>(os: seq<Observation<K, Root, A>>, ds: seq<(K, Table<A>)>) {
    && (forall i, j :: 0 <= i < j < |ds| ==> ds[i].0 != ds[j].0)
    && (forall key :: Has(ds, key) <==> Met(os, key))
    && (forall i :: 0 <= i < |ds| ==> IsContext(os, ds[i].0, ds[i].1))
  }

  /** The distributions of any observations of positive weight. */
  lemma DistributionsAre<K(!new), Root, A(!new)>(le: (Token<A>, Token<A>) -> bool, os: seq<Observation<K, Root, A>>)
    requires WellFormed(CountAll(os)) && forall i :: 0 <= i < |os| ==> os[i].weight > 0.0
    ensures IsModel(os, Distributions(le, CountAll(os)))
  {
    hide Distributions, CountAll, WellFormed, IsContext, Rows, WellCounted, Distribution;
    var counts := CountAll(os);
    var ds := Distributions(le, counts);
    WellFormedKeys(counts);
    forall o | o in os ensures o.weight > 0.0 {
      var i :| 0 <= i < |os| && os[i] == o;
    }
    Fit.DistributionAt(le, counts, 0);
    forall i | 0 <= i < |ds| ensures ds[i].0 == counts[i].0 && IsContext(os, ds[i].0, ds[i].1) {
      Fit.DistributionAt(le, counts, i);
      RowsOf(counts, i);
      ContextIs(le, os, counts[i].0);
    }
    forall key ensures Has(ds, key) <==> Met(os, key) {
      CountedKeys(os, key);
      FindsSome(counts, key);
      SameKeys(ds, counts, key);
    }
  }

  /** A learned model knows exactly the contexts that were observed, each once; in each of them exactly
      the tokens observed there; and gives each token the mean, over the roots observed in the context,
      of the part of the root's weight there that went to the token. */
  lemma LearnedExactly<D, S, T, Root, A(!new), K(!new)>(r: Reader<D, S, T, A, K>, le: (Token<A>, Token<A>) -> bool,
      branches: seq<Branch<D, Root>>)
    requires forall i :: 0 <= i < |branches| && branches[i].fixed ==> branches[i].weight > 0.0
    requires Learn(r, le, branches).Learned?
    ensures IsModel(Observations(r, Selected(branches)), Learn(r, le, branches).value)
  {
    hide Distributions, CountAll, Observations, Selected, WellFormed, IsModel;
    var os := Observations(r, Selected(branches));
    WeightsPositive(r, branches);
    CountAllWellFormed(os);
    DistributionsAre(le, os);
    assert Learn(r, le, branches).value == Distributions(le, CountAll(os));
  }

  lemma SameKeys<Key, V, W>(s: seq<(Key, V)>, t: seq<(Key, W)>, key: Key)
    requires |s| == |t| && forall i :: 0 <= i < |s| ==> s[i].0 == t[i].0
    ensures Has(s, key) <==> Has(t, key)
  {
    if i :| 0 <= i < |t| && t[i].0 == key {
      assert s[i].0 == key;
    }
  }

  lemma WellFormedKeys<K, Root, A>(counts: Counts<K, Root, A>)
    requires WellFormed(counts)
    ensures forall i, j :: 0 <= i < j < |counts| ==> counts[i].0 != counts[j].0
  {
  }

  // ------------------------------------------------------------ when it is refused

  ghost function Contexts<K, Root, A>(os: seq<Observation<K, Root, A>>): set<K> {
    set o | o in os :: o.key
  }

  ghost function TokensAt<K, Root, A>(os: seq<Observation<K, Root, A>>, key: K): set<Token<A>> {
    set o | o in os && o.key == key :: o.token
  }

  ghost function KeysOf<Key, V>(table: seq<(Key, V)>): set<Key> {
    set x | x in table :: x.0
  }

  lemma {:induction false} KeysSize<Key, V>(table: seq<(Key, V)>)
    requires forall i, j :: 0 <= i < j < |table| ==> table[i].0 != table[j].0
    ensures |KeysOf(table)| == |table| && forall k :: k in KeysOf(table) <==> Has(table, k)
  {
    if table != [] {
      var init, last := table[..|table| - 1], table[|table| - 1];
      assert table == init + [last];
      KeysSize(init);
      assert last.0 !in KeysOf(init);
      assert KeysOf(table) == KeysOf(init) + {last.0};
    }
    forall k | k in KeysOf(table) ensures Has(table, k) {
      var x :| x in table && x.0 == k;
      var i :| 0 <= i < |table| && table[i] == x;
    }
    forall k | Has(table, k) ensures k in KeysOf(table) {
      var i :| 0 <= i < |table| && table[i].0 == k;
      assert table[i] in table;
    }
  }

  lemma CountsSize<K, Root, A>(os: seq<Observation<K, Root, A>>)
    requires WellFormed(CountAll(os))
    ensures |CountAll(os)| == |Contexts(os)|
  {
    hide CountAll, WellFormed;
    var counts := CountAll(os);
    WellFormedKeys(counts);
    KeysSize(counts);
    forall key | key in Contexts(os) ensures key in KeysOf(counts) {
      CountedKeys(os, key);
      FindsSome(counts, key);
    }
    forall key | key in KeysOf(counts) ensures key in Contexts(os) {
      CountedKeys(os, key);
      FindsSome(counts, key);
    }
    assert KeysOf(counts) == Contexts(os);
  }

  lemma TokensSize<K, Root, A(!new)>(os: seq<Observation<K, Root, A>>, key: K, d: Table<A>)
    requires IsContext(os, key, d)
    ensures |d| == |TokensAt(os, key)|
  {
    hide MeanShare, RootsAt;
    KeysSize(d);
    forall token | token in TokensAt(os, key) ensures token in KeysOf(d) {
      assert ObservedAt(os, key, token);
    }
    forall token | token in KeysOf(d) ensures token in TokensAt(os, key) {
      assert ObservedAt(os, key, token);
    }
    assert KeysOf(d) == TokensAt(os, key);
  }

  /** Learning is refused without a fixed training branch, with too many contexts, or -- when those are
      in order -- with too many tokens in one context, and never otherwise. */
  lemma RefusedExactlyWhen<D, S, T, Root, A(!new), K(!new)>(r: Reader<D, S, T, A, K>, le: (Token<A>, Token<A>) -> bool,
      branches: seq<Branch<D, Root>>)
    requires forall i :: 0 <= i < |branches| && branches[i].fixed ==> branches[i].weight > 0.0
    ensures var result, os := Learn(r, le, branches), Observations(r, Selected(branches));
      var some := exists b :: b in branches && b.train && b.fixed;
      && (result == Refused(NoTrainingRoots) <==> !some)
      && (result == Refused(ContextLimit) <==> some && |Contexts(os)| > MAX_CONTEXTS)
      && (result == Refused(ActionLimit) <==>
            some && |Contexts(os)| <= MAX_CONTEXTS && exists key ::
              key in Contexts(os) && |TokensAt(os, key)| > MAX_CHOICES)
  {
    hide Distributions, CountAll, Observations, Selected, WellFormed, IsModel, Contexts, TokensAt;
    var os := Observations(r, Selected(branches));
    SomeSelected(branches);
    WeightsPositive(r, branches);
    CountAllWellFormed(os);
    CountsSize(os);
    DistributionsAre(le, os);
    TooManyTokens(os, Distributions(le, CountAll(os)));
  }

  lemma TooManyTokens<K(!new), Root, A(!new)>(os: seq<Observation<K, Root, A>>, ds: seq<(K, Table<A>)>)
    requires IsModel(os, ds)
    ensures (exists i :: 0 <= i < |ds| && |ds[i].1| > MAX_CHOICES)
       <==> (exists key :: key in Contexts(os) && |TokensAt(os, key)| > MAX_CHOICES)
  {
    hide IsContext, TokensAt, Contexts;
    if i :| 0 <= i < |ds| && |ds[i].1| > MAX_CHOICES {
      assert IsContext(os, ds[i].0, ds[i].1);
      TokensSize(os, ds[i].0, ds[i].1);
      assert Has(ds, ds[i].0);
      InContexts(os, ds[i].0);
    }
    if key :| key in Contexts(os) && |TokensAt(os, key)| > MAX_CHOICES {
      InContexts(os, key);
      assert Has(ds, key);
      var i :| 0 <= i < |ds| && ds[i].0 == key;
      TokensSize(os, key, ds[i].1);
    }
  }

  lemma InContexts<K, Root, A>(os: seq<Observation<K, Root, A>>, key: K)
    ensures key in Contexts(os) <==> Met(os, key)
  {
  }

  lemma SomeSelected<D, Root>(branches: seq<Branch<D, Root>>)
    ensures Selected(branches) != [] <==> exists b :: b in branches && b.train && b.fixed
  {
    if Selected(branches) != [] {
      var b := Selected(branches)[0];
      assert b in multiset(Selected(branches));
      SelectedAre(branches, b);
      assert b in multiset(branches);
    }
    if b :| b in branches && b.train && b.fixed {
      SelectedAre(branches, b);
      assert b in multiset(branches);
    }
  }

  // ---------------------------------------------------------- what is observed

  /** The state a record is in after i of its steps. */
  function StateAfter<D, S, T, A, K>(r: Reader<D, S, T, A, K>, d: D, i: nat): S
    requires i <= |r.steps(d)|
  {
    if i == 0 then r.start(d) else r.follow(d, StateAfter(r, d, i - 1), r.steps(d)[i - 1])
  }

  /** What happens next after i steps: the next step, or how the record ends. */
  function TokenAfter<D, S, T, A, K>(r: Reader<D, S, T, A, K>, d: D, i: nat): Token<A>
    requires i <= |r.steps(d)|
  {
    if i < |r.steps(d)| then r.encode(d, StateAfter(r, d, i), r.steps(d)[i])
    else if r.completed(d) then End
    else Unknown
  }

  /** What is observed after i steps. */
  function StepOf<D, S, T, Root, A, K>(r: Reader<D, S, T, A, K>, b: Branch<D, Root>, i: nat): Observation<K, Root, A>
    requires i <= |r.steps(b.record)|
  {
    Observation(r.context(b.record, StateAfter(r, b.record, i)), b.root, TokenAfter(r, b.record, i), b.weight)
  }

  /** Observed from step i on: one step after another, going on past every known token, and stopping
      short of the end only at an unknown one. */
  ghost predicate ObservedFrom<D, S, T, Root, A, K>(r: Reader<D, S, T, A, K>, b: Branch<D, Root>, i: nat,
      t: seq<Observation<K, Root, A>>)
    requires i <= |r.steps(b.record)|
  {
    && 1 <= |t| <= |r.steps(b.record)| + 1 - i
    && (forall k :: 0 <= k < |t| ==> t[k] == StepOf(r, b, i + k))
    && (forall k :: 0 <= k < |t| - 1 ==> t[k].token != Unknown)
    && (|t| <= |r.steps(b.record)| - i ==> t[|t| - 1].token == Unknown)
  }

  lemma {:induction false} TraceFrom<D, S, T, Root, A, K>(r: Reader<D, S, T, A, K>, b: Branch<D, Root>, i: nat)
    requires i <= |r.steps(b.record)|
    ensures ObservedFrom(r, b, i, Trace(r, b, StateAfter(r, b.record, i), i))
    decreases |r.steps(b.record)| - i
  {
    var d := b.record;
    var t := Trace(r, b, StateAfter(r, d, i), i);
    assert t[0] == StepOf(r, b, i);
    if i < |r.steps(d)| && TokenAfter(r, d, i) != Unknown {
      TraceFrom(r, b, i + 1);
      var rest := Trace(r, b, StateAfter(r, d, i + 1), i + 1);
      assert t == [t[0]] + rest;
      LongerObserved(r, b, i, t, rest);
    }
  }

  lemma LongerObserved<D, S, T, Root, A, K>(r: Reader<D, S, T, A, K>, b: Branch<D, Root>, i: nat,
      t: seq<Observation<K, Root, A>>, rest: seq<Observation<K, Root, A>>)
    requires i < |r.steps(b.record)| && ObservedFrom(r, b, i + 1, rest)
    requires t == [StepOf(r, b, i)] + rest && t[0].token != Unknown
    ensures ObservedFrom(r, b, i, t)
  {
    hide StepOf;
    forall k | 0 <= k < |t| ensures t[k] == StepOf(r, b, i + k) {
      if k > 0 {
        assert t[k] == rest[k - 1] == StepOf(r, b, i + 1 + (k - 1));
      }
    }
    forall k | 0 <= k < |t| - 1 ensures t[k].token != Unknown {
      if k > 0 {
        assert t[k] == rest[k - 1];
      }
    }
    assert t[|t| - 1] == rest[|rest| - 1];
  }

  /** A branch is observed step by step, each in the state the steps before it led to, up to and with
      the first unknown one; a branch without one is observed to its end. */
  lemma BranchIsObserved<D, S, T, Root, A, K>(r: Reader<D, S, T, A, K>, b: Branch<D, Root>)
    ensures ObservedFrom(r, b, 0, Trace(r, b, r.start(b.record), 0))
  {
    hide Trace, ObservedFrom;
    TraceFrom(r, b, 0);
  }

  /** The observations are those of the selected branches, one after the other. */
  lemma {:induction false} ObservedIn<D, S, T, Root, A, K>(r: Reader<D, S, T, A, K>, train: seq<Branch<D, Root>>,
      o: Observation<K, Root, A>)
    ensures o in Observations(r, train) <==>
            exists b :: b in train && o in Trace(r, b, r.start(b.record), 0)
  {
    hide Trace;
    if train != [] {
      var init, last := train[..|train| - 1], train[|train| - 1];
      assert train == init + [last];
      ObservedIn(r, init, o);
      if b :| b in train && o in Trace(r, b, r.start(b.record), 0) {
        assert b == last || b in init;
      }
      assert last in train;
    }
  }

  /** Selected are exactly the fixed training branches, as often as they occur. */
  lemma {:induction false} SelectedAre<D, Root>(branches: seq<Branch<D, Root>>, b: Branch<D, Root>)
    ensures multiset(Selected(branches))[b] == if b.train && b.fixed then multiset(branches)[b] else 0
  {
    if branches != [] {
      var init, last := branches[..|branches| - 1], branches[|branches| - 1];
      assert branches == init + [last];
      SelectedAre(init, b);
    }
  }
}
