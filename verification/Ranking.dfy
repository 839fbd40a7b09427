/** Ordering of weighted action sequences: the sort key (-mass, actions) and the
    prefix of the sorted list that a beam keeps. */
module Ranking {
  /** A probability mass, the action sequence that earned it, and what it leads to. */
  datatype Item<A, V> = Item(mass: real, actions: seq<A>, value: V)

  ghost predicate TotalOrder<A(!new)>(le: (A, A) -> bool) {
    && (forall a :: le(a, a))
    && (forall a, b :: le(a, b) || le(b, a))
    && (forall a, b :: le(a, b) && le(b, a) ==> a == b)
    && (forall a, b, c :: le(a, b) && le(b, c) ==> le(a, c))
  }

  /** Tuple comparison: the first difference decides and a proper prefix comes first. */
  predicate LexLe<A(==)>(le: (A, A) -> bool, s: seq<A>, t: seq<A>) {
    if s == [] then true
    else if t == [] then false
    else if s[0] == t[0] then LexLe(le, s[1..], t[1..])
    else le(s[0], t[0])
  }

  /** x sorts no later than y: heavier first, ties by action sequence. */
  predicate Ahead<A(==), V>(le: (A, A) -> bool, x: Item<A, V>, y: Item<A, V>) {
    x.mass > y.mass || (x.mass == y.mass && LexLe(le, x.actions, y.actions))
  }

  ghost predicate Sorted<A, V>(le: (A, A) -> bool, s: seq<Item<A, V>>) {
    forall i, j :: 0 <= i < j < |s| ==> Ahead(le, s[i], s[j])
  }

  /** A stable sort, one insertion at a time. */
  function Insert<A(==), V>(le: (A, A) -> bool, x: Item<A, V>, s: seq<Item<A, V>>): (r: seq<Item<A, V>>)
    ensures |r| == |s| + 1
  {
    if s == [] then [x]
    else if Ahead(le, s[0], x) then [s[0]] + Insert(le, x, s[1..])
    else [x] + s
  }

  function Sort<A(==), V>(le: (A, A) -> bool, s: seq<Item<A, V>>): (r: seq<Item<A, V>>)
    ensures |r| == |s|
  {
    if s == [] then [] else Insert(le, s[|s| - 1], Sort(le, s[..|s| - 1]))
  }

  function Take<T>(k: nat, s: seq<T>): (r: seq<T>)
  {
    if |s| <= k then s else s[..k]
  }

  /** What a beam of width k keeps of s. */
  function Best<A(==), V>(le: (A, A) -> bool, k: nat, s: seq<Item<A, V>>): (r: seq<Item<A, V>>)
    ensures |r| <= k && |r| <= |s|
  {
    Take(k, Sort(le, s))
  }

  /** The sum of f over s. */
  function Sum<A, V>(f: Item<A, V> -> real, s: seq<Item<A, V>>): real {
    if s == [] then 0.0 else f(s[0]) + Sum(f, s[1..])
  }

  function ByMass<A, V>(): Item<A, V> -> real {
    (x: Item<A, V>) => x.mass
  }

  function MassOf<A, V>(s: seq<Item<A, V>>): real {
    Sum(ByMass(), s)
  }

  // ---------------------------------------------------------------- the order

  lemma {:induction false} LexTotal<A(!new)>(le: (A, A) -> bool, s: seq<A>, t: seq<A>)
    requires TotalOrder(le)
    ensures LexLe(le, s, t) || LexLe(le, t, s)
    ensures LexLe(le, s, t) && LexLe(le, t, s) ==> s == t
  {
    if s != [] && t != [] && s[0] == t[0] {
      LexTotal(le, s[1..], t[1..]);
      assert s == [s[0]] + s[1..] && t == [t[0]] + t[1..];
    }
  }

  lemma {:induction false} LexTransitive<A(!new)>(le: (A, A) -> bool, s: seq<A>, t: seq<A>, u: seq<A>)
    requires TotalOrder(le)
    requires LexLe(le, s, t) && LexLe(le, t, u)
    ensures LexLe(le, s, u)
  {
    if s != [] && t != [] && u != [] {
      if s[0] == t[0] == u[0] {
        LexTransitive(le, s[1..], t[1..], u[1..]);
      }
    }
  }

  lemma AheadTransitive<A(!new), V>(le: (A, A) -> bool, x: Item<A, V>, y: Item<A, V>, z: Item<A, V>)
    requires TotalOrder(le)
    requires Ahead(le, x, y) && Ahead(le, y, z)
    ensures Ahead(le, x, z)
  {
    if x.mass == y.mass == z.mass {
      LexTransitive(le, x.actions, y.actions, z.actions);
    }
  }

  // ----------------------------------------------------------------- sorting

  lemma {:induction false} InsertPermutes<A, V>(le: (A, A) -> bool, x: Item<A, V>, s: seq<Item<A, V>>)
    ensures multiset(Insert(le, x, s)) == multiset(s) + multiset{x}
  {
    if s != [] && Ahead(le, s[0], x) {
      InsertPermutes(le, x, s[1..]);
      assert s == [s[0]] + s[1..];
    }
  }

  lemma {:induction false} SortPermutes<A, V>(le: (A, A) -> bool, s: seq<Item<A, V>>)
    ensures multiset(Sort(le, s)) == multiset(s)
  {
    if s != [] {
      SortPermutes(le, s[..|s| - 1]);
      InsertPermutes(le, s[|s| - 1], Sort(le, s[..|s| - 1]));
      assert s == s[..|s| - 1] + [s[|s| - 1]];
    }
  }

  lemma {:induction false} InsertSorted<A(!new), V>(le: (A, A) -> bool, x: Item<A, V>, s: seq<Item<A, V>>)
    requires TotalOrder(le) && Sorted(le, s)
    ensures Sorted(le, Insert(le, x, s))
  {
    if s != [] {
      var r := Insert(le, x, s);
      if Ahead(le, s[0], x) {
        var rest := Insert(le, x, s[1..]);
        InsertSorted(le, x, s[1..]);
        InsertPermutes(le, x, s[1..]);
        forall j | 0 <= j < |rest| ensures Ahead(le, s[0], rest[j]) {
          assert rest[j] in multiset(rest);
          if rest[j] != x {
            assert rest[j] in multiset(s[1..]);
            assert rest[j] in s[1..];
          }
        }
        assert r == [s[0]] + rest;
      } else {
        LexTotal(le, s[0].actions, x.actions);
        forall j | 0 <= j < |s| ensures Ahead(le, x, s[j]) {
          if j > 0 { AheadTransitive(le, x, s[0], s[j]); }
        }
      }
    }
  }

  lemma {:induction false} SortSorted<A(!new), V>(le: (A, A) -> bool, s: seq<Item<A, V>>)
    requires TotalOrder(le)
    ensures Sorted(le, Sort(le, s))
  {
    if s != [] {
      SortSorted(le, s[..|s| - 1]);
      InsertSorted(le, s[|s| - 1], Sort(le, s[..|s| - 1]));
    }
  }

  lemma {:induction false} InsertLast<A, V>(le: (A, A) -> bool, x: Item<A, V>, s: seq<Item<A, V>>)
    requires forall i :: 0 <= i < |s| ==> Ahead(le, s[i], x)
    ensures Insert(le, x, s) == s + [x]
  {
    if s != [] {
      InsertLast(le, x, s[1..]);
      assert s == [s[0]] + s[1..];
    }
  }

  lemma {:induction false} SortOfSorted<A, V>(le: (A, A) -> bool, s: seq<Item<A, V>>)
    requires Sorted(le, s)
    ensures Sort(le, s) == s
  {
    if s != [] {
      var init := s[..|s| - 1];
      SortOfSorted(le, init);
      InsertLast(le, s[|s| - 1], init);
      assert s == init + [s[|s| - 1]];
    }
  }

  // ------------------------------------------------------- pruning is harmless

  lemma {:induction false} TakeInsert<A, V>(le: (A, A) -> bool, k: nat, x: Item<A, V>, s: seq<Item<A, V>>)
    ensures Take(k, Insert(le, x, s)) == Take(k, Insert(le, x, Take(k, s)))
  {
    if |s| > k && k > 0 {
      if Ahead(le, s[0], x) {
        TakeInsert(le, k - 1, x, s[1..]);
        assert s[..k][1..] == s[1..][..k - 1];
        assert Take(k, s)[1..] == Take(k - 1, s[1..]);
        var whole, cut := Insert(le, x, s[1..]), Insert(le, x, Take(k - 1, s[1..]));
        assert Take(k, [s[0]] + whole) == [s[0]] + Take(k - 1, whole);
        assert Take(k, [s[0]] + cut) == [s[0]] + Take(k - 1, cut);
      } else {
        assert Take(k, [x] + s) == Take(k, [x] + s[..k]);
      }
    }
  }

  /** Keeping only the best k before adding one more item loses nothing of the final best k. */
  lemma PruneThenAdd<A(!new), V>(le: (A, A) -> bool, k: nat, s: seq<Item<A, V>>, x: Item<A, V>)
    requires TotalOrder(le)
    ensures Best(le, k, Best(le, k, s) + [x]) == Best(le, k, s + [x])
  {
    var kept := Best(le, k, s);
    SortSorted(le, s);
    SortOfSorted(le, kept);
    assert (kept + [x])[..|kept|] == kept && (s + [x])[..|s|] == s;
    TakeInsert(le, k, x, Sort(le, s));
  }

  lemma BestOfBest<A(!new), V>(le: (A, A) -> bool, k: nat, s: seq<Item<A, V>>)
    requires TotalOrder(le)
    ensures Best(le, k, Best(le, k, s)) == Best(le, k, s)
  {
    SortSorted(le, s);
    SortOfSorted(le, Best(le, k, s));
  }

  /** Appending an item to two lists with the same best k leaves their best k equal. */
  lemma BestCongruence<A(!new), V>(le: (A, A) -> bool, k: nat, s: seq<Item<A, V>>, t: seq<Item<A, V>>, x: Item<A, V>)
    requires TotalOrder(le)
    requires Best(le, k, s) == Best(le, k, t)
    ensures Best(le, k, s + [x]) == Best(le, k, t + [x])
  {
    PruneThenAdd(le, k, s, x);
    PruneThenAdd(le, k, t, x);
  }

  // -------------------------------------------------------------------- sums

  lemma {:induction false} SumAppend<A, V>(f: Item<A, V> -> real, s: seq<Item<A, V>>, t: seq<Item<A, V>>)
    ensures Sum(f, s + t) == Sum(f, s) + Sum(f, t)
  {
    if s == [] {
      assert s + t == t;
    } else {
      SumAppend(f, s[1..], t);
      assert (s + t)[1..] == s[1..] + t;
    }
  }

  lemma {:induction false} SumInsert<A, V>(f: Item<A, V> -> real, le: (A, A) -> bool, x: Item<A, V>, s: seq<Item<A, V>>)
    ensures Sum(f, Insert(le, x, s)) == f(x) + Sum(f, s)
  {
    if s != [] && Ahead(le, s[0], x) {
      SumInsert(f, le, x, s[1..]);
    } else {
      assert ([x] + s)[1..] == s;
    }
  }

  lemma {:induction false} SumSort<A, V>(f: Item<A, V> -> real, le: (A, A) -> bool, s: seq<Item<A, V>>)
    ensures Sum(f, Sort(le, s)) == Sum(f, s)
  {
    if s != [] {
      var init := s[..|s| - 1];
      SumSort(f, le, init);
      SumInsert(f, le, s[|s| - 1], Sort(le, init));
      SumAppend(f, init, [s[|s| - 1]]);
      assert s == init + [s[|s| - 1]];
    }
  }

  /** Whatever is measured, keeping and dropping split it. */
  lemma SumSplit<A, V>(f: Item<A, V> -> real, le: (A, A) -> bool, k: nat, s: seq<Item<A, V>>)
    ensures Sum(f, s) == Sum(f, Best(le, k, s)) + Sum(f, Dropped(le, k, s))
  {
    SumSort(f, le, s);
    BestAndDropped(le, k, s);
    SumAppend(f, Best(le, k, s), Dropped(le, k, s));
  }

  lemma {:induction false} SumBounds<A, V>(f: Item<A, V> -> real, bound: real, s: seq<Item<A, V>>)
    requires forall x :: x in s ==> 0.0 <= f(x) <= bound * x.mass
    ensures 0.0 <= Sum(f, s) <= bound * MassOf(s)
  {
    if s != [] {
      SumBounds(f, bound, s[1..]);
      assert f(s[0]) <= bound * s[0].mass;
      assert bound * MassOf(s) == bound * s[0].mass + bound * MassOf(s[1..]);
    }
  }

  /** What a beam of width k drops. */
  function Dropped<A(==), V>(le: (A, A) -> bool, k: nat, s: seq<Item<A, V>>): (r: seq<Item<A, V>>)
  {
    if |s| <= k then [] else Sort(le, s)[k..]
  }

  lemma BestAndDropped<A, V>(le: (A, A) -> bool, k: nat, s: seq<Item<A, V>>)
    ensures Sort(le, s) == Best(le, k, s) + Dropped(le, k, s)
    ensures multiset(s) == multiset(Best(le, k, s)) + multiset(Dropped(le, k, s))
  {
    SortPermutes(le, s);
    assert Sort(le, s) == Best(le, k, s) + Dropped(le, k, s);
  }

  // ------------------------------------------- with distinct action sequences

  ghost predicate DistinctActions<A, V>(s: seq<Item<A, V>>) {
    forall i, j :: 0 <= i < j < |s| ==> s[i].actions != s[j].actions
  }

  /** s comes before t: t goes on where s ends, or s has the smaller action where they first differ. */
  ghost predicate Precedes<A>(le: (A, A) -> bool, s: seq<A>, t: seq<A>) {
    || s < t
    || (exists i :: 0 <= i < |s| && i < |t| && s[..i] == t[..i] && s[i] != t[i] && le(s[i], t[i]))
  }

  /** x is worth keeping before y: it is heavier, or as heavy and its actions come before. */
  ghost predicate Better<A, V>(le: (A, A) -> bool, x: Item<A, V>, y: Item<A, V>) {
    x.mass > y.mass || (x.mass == y.mass && Precedes(le, x.actions, y.actions))
  }

  lemma {:induction false} LexMeans<A>(le: (A, A) -> bool, s: seq<A>, t: seq<A>)
    requires LexLe(le, s, t) && s != t
    ensures Precedes(le, s, t)
  {
    if s != [] && s[0] == t[0] {
      assert s == [s[0]] + s[1..] && t == [t[0]] + t[1..];
      LexMeans(le, s[1..], t[1..]);
      if !(s[1..] < t[1..]) {
        var i :| 0 <= i < |s[1..]| && i < |t[1..]| && s[1..][..i] == t[1..][..i] && s[1..][i] != t[1..][i]
          && le(s[1..][i], t[1..][i]);
        assert s[..i + 1] == [s[0]] + s[1..][..i] && t[..i + 1] == [t[0]] + t[1..][..i];
      }
    } else if s != [] {
      assert s[..0] == t[..0];
    }
  }

  /** The beam is exact: everything kept sorts strictly ahead of everything dropped. */
  lemma BestIsBest<A(!new), V>(le: (A, A) -> bool, k: nat, s: seq<Item<A, V>>, kept: Item<A, V>, gone: Item<A, V>)
    requires TotalOrder(le) && DistinctActions(s)
    requires kept in Best(le, k, s) && gone in Dropped(le, k, s)
    ensures Ahead(le, kept, gone) && !Ahead(le, gone, kept) && Better(le, kept, gone)
  {
    var sorted := Sort(le, s);
    SortSorted(le, s);
    SortPermutes(le, s);
    var i :| 0 <= i < k && sorted[i] == kept;
    var d := Dropped(le, k, s);
    var j :| 0 <= j < |d| && d[j] == gone;
    assert sorted[k + j] == gone;
    DistinctPermuted(s, sorted, i, k + j);
    LexTotal(le, kept.actions, gone.actions);
    if kept.mass == gone.mass {
      LexMeans(le, kept.actions, gone.actions);
    }
  }

  lemma TwicePresent<T>(t: seq<T>, i: nat, j: nat)
    requires i < j < |t| && t[i] == t[j]
    ensures multiset(t)[t[i]] >= 2
  {
    assert t == t[..j] + t[j..];
    assert t[..j][i] == t[i] && t[j..][0] == t[i];
  }

  lemma {:induction false} OncePresent<A, V>(s: seq<Item<A, V>>, x: Item<A, V>)
    requires DistinctActions(s)
    ensures multiset(s)[x] <= 1
  {
    if s != [] {
      OncePresent(s[1..], x);
      assert s == [s[0]] + s[1..];
      if s[0] == x {
        assert x !in s[1..];
      }
    }
  }

  lemma DistinctPermuted<A, V>(s: seq<Item<A, V>>, t: seq<Item<A, V>>, i: nat, j: nat)
    requires DistinctActions(s) && multiset(s) == multiset(t)
    requires i < j < |t|
    ensures t[i].actions != t[j].actions
  {
    assert t[i] in multiset(t) && t[j] in multiset(t);
    assert t[i] in s && t[j] in s;
    if t[i] == t[j] {
      TwicePresent(t, i, j);
      OncePresent(s, t[i]);
    }
  }
}
