/** A stable sort by a key, as std::stable_sort promises it. */
module StableSort {

  ghost predicate Sorted<T>(key: T -> nat, xs: seq<T>) {
    forall i, j | 0 <= i < j < |xs| :: key(xs[i]) <= key(xs[j])
  }

  ghost predicate Distinct<T>(xs: seq<T>) {
    forall i, j | 0 <= i < j < |xs| :: xs[i] != xs[j]
  }

  ghost predicate SameElements<T(!new)>(xs: seq<T>, ys: seq<T>) {
    forall x :: x in xs <==> x in ys
  }

  /** `x` goes behind everything whose key is not greater. */
  function Insert<T>(key: T -> nat, xs: seq<T>, x: T): seq<T>
    decreases |xs|
  {
    if xs == [] || key(xs[|xs| - 1]) <= key(x) then xs + [x]
    else Insert(key, xs[..|xs| - 1], x) + [xs[|xs| - 1]]
  }

  function Sort<T>(key: T -> nat, xs: seq<T>): seq<T>
    decreases |xs|
  {
    if xs == [] then [] else Insert(key, Sort(key, xs[..|xs| - 1]), xs[|xs| - 1])
  }

  /** The elements of one key, in order. */
  function WithKey<T>(key: T -> nat, xs: seq<T>, k: nat): seq<T>
    decreases |xs|
  {
    if xs == [] then []
    else WithKey(key, xs[..|xs| - 1], k) + if key(xs[|xs| - 1]) == k then [xs[|xs| - 1]] else []
  }

  lemma {:induction false} InsertSorted<T>(key: T -> nat, xs: seq<T>, x: T)
    requires Sorted(key, xs)
    ensures Sorted(key, Insert(key, xs, x))
    ensures var r := Insert(key, xs, x);
            && (forall i | 0 <= i < |r| :: r[i] in xs || r[i] == x) && x in r
            && (forall i | 0 <= i < |xs| :: xs[i] in r)
    decreases |xs|
  {
    if xs != [] && key(xs[|xs| - 1]) > key(x) {
      var init := xs[..|xs| - 1];
      assert xs == init + [xs[|xs| - 1]];
      InsertSorted(key, init, x);
      var r := Insert(key, init, x);
      forall i | 0 <= i < |r| ensures key(r[i]) <= key(xs[|xs| - 1]) {
        assert r[i] in r;
        if r[i] != x {
          var j :| 0 <= j < |init| && init[j] == r[i];
          assert xs[j] == r[i];
        }
      }
    }
  }

  lemma {:induction false} InsertDistinct<T>(key: T -> nat, xs: seq<T>, x: T)
    requires Sorted(key, xs) && Distinct(xs) && x !in xs
    ensures Distinct(Insert(key, xs, x))
    decreases |xs|
  {
    if xs != [] && key(xs[|xs| - 1]) > key(x) {
      var init := xs[..|xs| - 1];
      InsertDistinct(key, init, x);
      InsertSorted(key, init, x);
      var r := Insert(key, init, x);
      forall i | 0 <= i < |r| ensures r[i] != xs[|xs| - 1] {
        assert r[i] in r;
      }
    }
  }

  lemma {:induction false} InsertStable<T>(key: T -> nat, xs: seq<T>, x: T, k: nat)
    requires Sorted(key, xs)
    ensures WithKey(key, Insert(key, xs, x), k) == WithKey(key, xs, k) + if key(x) == k then [x] else []
    decreases |xs|
  {
    var r := Insert(key, xs, x);
    if xs == [] || key(xs[|xs| - 1]) <= key(x) {
      assert r[..|r| - 1] == xs;
    } else {
      InsertStable(key, xs[..|xs| - 1], x, k);
      assert r[..|r| - 1] == Insert(key, xs[..|xs| - 1], x);
    }
  }

  /** Sorted, stable, and a rearrangement. */
  lemma {:induction false} SortCorrect<T(!new)>(key: T -> nat, xs: seq<T>)
    ensures Sorted(key, Sort(key, xs)) && SameElements(xs, Sort(key, xs))
    ensures Distinct(xs) ==> Distinct(Sort(key, xs))
    ensures forall k: nat :: WithKey(key, Sort(key, xs), k) == WithKey(key, xs, k)
    decreases |xs|
  {
    if xs != [] {
      var init, x := xs[..|xs| - 1], xs[|xs| - 1];
      assert xs == init + [x];
      SortCorrect(key, init);
      InsertSorted(key, Sort(key, init), x);
      if Distinct(xs) {
        InsertDistinct(key, Sort(key, init), x);
      }
      forall k: nat ensures WithKey(key, Sort(key, xs), k) == WithKey(key, xs, k) {
        InsertStable(key, Sort(key, init), x, k);
      }
    }
  }
}
