/**
 * Array.prototype.sort with a comparator, as the app uses it to order
 * rankings, rounds, years and group ids. The engine's sort is stable; it is
 * modelled as an insertion sort where `le(a, b)` means "a may stay in front
 * of b" (the comparator returns a value <= 0).
 */
module StableSort {
  import opened JsText

  function Insert<T>(x: T, s: seq<T>, le: (T, T) -> bool): (r: seq<T>)
    ensures |r| == |s| + 1
    ensures multiset(r) == multiset(s) + multiset{x}
  {
    if s == [] || le(x, s[0]) then [x] + s
    else
      assert s == [s[0]] + s[1..];
      [s[0]] + Insert(x, s[1..], le)
  }

  function Sort<T>(s: seq<T>, le: (T, T) -> bool): (r: seq<T>)
    ensures |r| == |s|
    ensures multiset(r) == multiset(s)
  {
    if s == [] then []
    else
      assert s == [s[0]] + s[1..];
      Insert(s[0], Sort(s[1..], le), le)
  }

  /** The comparator orders every pair and is transitive. */
  ghost predicate TotalPreorder<T(!new)>(le: (T, T) -> bool)
  {
    (forall a, b :: le(a, b) || le(b, a)) &&
    (forall a, b, c :: le(a, b) && le(b, c) ==> le(a, c))
  }

  ghost predicate SortedBy<T>(s: seq<T>, le: (T, T) -> bool)
  {
    forall i, j :: 0 <= i < j < |s| ==> le(s[i], s[j])
  }

  lemma {:induction false} InsertSorted<T(!new)>(x: T, s: seq<T>, le: (T, T) -> bool)
    requires TotalPreorder(le) && SortedBy(s, le)
    ensures SortedBy(Insert(x, s, le), le)
  {
    if s != [] && !le(x, s[0]) {
      InsertSorted(x, s[1..], le);
      var r := Insert(x, s, le);
      var t := Insert(x, s[1..], le);
      assert r == [s[0]] + t;
      forall j | 1 <= j < |r|
        ensures le(r[0], r[j])
      {
        assert r[j] in multiset(t);
        assert r[j] in multiset(s[1..]) + multiset{x};
        if r[j] != x {
          assert r[j] in s[1..];
          var k :| 0 <= k < |s[1..]| && s[1..][k] == r[j];
          assert s[k + 1] == r[j];
        }
      }
    }
  }

  /** The result of the sort is in comparator order. */
  lemma {:induction false} SortSorted<T(!new)>(s: seq<T>, le: (T, T) -> bool)
    requires TotalPreorder(le)
    ensures SortedBy(Sort(s, le), le)
  {
    if s != [] {
      SortSorted(s[1..], le);
      InsertSorted(s[0], Sort(s[1..], le), le);
    }
  }

  /** Sorting a list that is already in order changes nothing. */
  lemma {:induction false} SortOfSorted<T>(s: seq<T>, le: (T, T) -> bool)
    requires SortedBy(s, le)
    ensures Sort(s, le) == s
  {
    if s != [] {
      assert SortedBy(s[1..], le);
      SortOfSorted(s[1..], le);
      assert s == [s[0]] + s[1..];
    }
  }

  /** Elements `le` cannot tell apart from `x`, in their order in `s`. */
  function Ties<T>(s: seq<T>, x: T, le: (T, T) -> bool): (r: seq<T>)
    ensures |r| <= |s|
  {
    if s == [] then []
    else (if le(x, s[0]) && le(s[0], x) then [s[0]] else []) + Ties(s[1..], x, le)
  }

  /** Inserting `y` passes only elements strictly before it, which cannot tie with a tie of `y`. */
  lemma {:induction false} InsertTies<T>(y: T, s: seq<T>, x: T, le: (T, T) -> bool)
    requires forall i :: 0 <= i < |s| ==> (le(y, x) && le(x, s[i]) ==> le(y, s[i]))
    ensures Ties(Insert(y, s, le), x, le) == (if le(x, y) && le(y, x) then [y] else []) + Ties(s, x, le)
  {
    if s == [] || le(y, s[0]) {
      assert Insert(y, s, le) == [y] + s;
      assert ([y] + s)[1..] == s;
    } else {
      InsertTies(y, s[1..], x, le);
      var t := Insert(y, s[1..], le);
      var head := if le(x, s[0]) && le(s[0], x) then [s[0]] else [];
      var mine := if le(x, y) && le(y, x) then [y] else [];
      assert Insert(y, s, le) == [s[0]] + t;
      assert ([s[0]] + t)[1..] == t;
      assert Ties([s[0]] + t, x, le) == head + Ties(t, x, le);
      assert Ties(s, x, le) == head + Ties(s[1..], x, le);
      assert head == [] || mine == [];
    }
  }

  /**
   * Stability: elements the comparator calls equal come out in the order
   * they went in.
   */
  lemma {:induction false} SortStable<T(!new)>(s: seq<T>, x: T, le: (T, T) -> bool)
    requires TotalPreorder(le)
    ensures Ties(Sort(s, le), x, le) == Ties(s, x, le)
  {
    if s != [] {
      SortStable(s[1..], x, le);
      var t := Sort(s[1..], le);
      forall i | 0 <= i < |t|
        ensures le(s[0], x) && le(x, t[i]) ==> le(s[0], t[i])
      {
      }
      InsertTies(s[0], t, x, le);
    }
  }

  /** The sort only consults the comparator on the elements it is given. */
  lemma {:induction false} InsertCongruent<T>(x: T, s: seq<T>, le1: (T, T) -> bool, le2: (T, T) -> bool)
    requires forall i :: 0 <= i < |s| ==> le1(x, s[i]) == le2(x, s[i])
    ensures Insert(x, s, le1) == Insert(x, s, le2)
  {
    if s != [] {
      InsertCongruent(x, s[1..], le1, le2);
    }
  }

  lemma {:induction false} SortCongruent<T>(s: seq<T>, le1: (T, T) -> bool, le2: (T, T) -> bool)
    requires forall a, b :: a in s && b in s ==> le1(a, b) == le2(a, b)
    ensures Sort(s, le1) == Sort(s, le2)
  {
    if s != [] {
      SortCongruent(s[1..], le1, le2);
      var t := Sort(s[1..], le1);
      forall i | 0 <= i < |t|
        ensures le1(s[0], t[i]) == le2(s[0], t[i])
      {
        assert t[i] in multiset(s[1..]);
        assert t[i] in s[1..];
      }
      InsertCongruent(s[0], t, le1, le2);
    }
  }

  /** Every two elements, earlier against later, are related by `R`. */
  ghost predicate Pairwise<T>(s: seq<T>, R: (T, T) -> bool)
  {
    forall i, j :: 0 <= i < j < |s| ==> R(s[i], s[j])
  }

  lemma {:induction false} InsertPairwise<T(!new)>(x: T, s: seq<T>, le: (T, T) -> bool, R: (T, T) -> bool)
    requires forall a, b :: R(a, b) == R(b, a)
    requires Pairwise(s, R)
    requires forall i :: 0 <= i < |s| ==> R(x, s[i])
    ensures Pairwise(Insert(x, s, le), R)
  {
    if s != [] && !le(x, s[0]) {
      InsertPairwise(x, s[1..], le, R);
      var t := Insert(x, s[1..], le);
      var r := [s[0]] + t;
      assert Insert(x, s, le) == r;
      forall j | 1 <= j < |r|
        ensures R(r[0], r[j])
      {
        assert r[j] in multiset(s[1..]) + multiset{x};
        if r[j] != x {
          var k :| 0 <= k < |s[1..]| && s[1..][k] == r[j];
          assert s[k + 1] == r[j];
        }
      }
    }
  }

  /** A symmetric relation that holds between every two elements still holds after sorting. */
  lemma {:induction false} SortPairwise<T(!new)>(s: seq<T>, le: (T, T) -> bool, R: (T, T) -> bool)
    requires forall a, b :: R(a, b) == R(b, a)
    requires Pairwise(s, R)
    ensures Pairwise(Sort(s, le), R)
  {
    if s != [] {
      assert Pairwise(s[1..], R);
      SortPairwise(s[1..], le, R);
      var t := Sort(s[1..], le);
      forall i | 0 <= i < |t|
        ensures R(s[0], t[i])
      {
        assert t[i] in multiset(s[1..]);
        var k :| 0 <= k < |s[1..]| && s[1..][k] == t[i];
        assert s[k + 1] == t[i];
      }
      InsertPairwise(s[0], t, le, R);
    }
  }

  // ---------------------------------------------------------------------------
  // Comparators by an integer key

  /** `(a, b) => key(b) - key(a)`: larger keys first. */
  function ByKeyDesc<T>(key: T -> int): (T, T) -> bool
  {
    (a: T, b: T) => key(a) >= key(b)
  }

  /** The key of a plain number array, as in `(a, b) => b - a`. */
  function Identity(n: int): int
  {
    n
  }

  /** `(a, b) => key(a) - key(b)`: smaller keys first. */
  function ByKeyAsc<T>(key: T -> int): (T, T) -> bool
  {
    (a: T, b: T) => key(a) <= key(b)
  }

  lemma KeyDescTotal<T(!new)>(key: T -> int)
    ensures TotalPreorder(ByKeyDesc(key))
  {
  }

  lemma KeyAscTotal<T(!new)>(key: T -> int)
    ensures TotalPreorder(ByKeyAsc(key))
  {
  }

  /** Sorting by a key in descending order: the facts callers rely on. */
  lemma SortDescFacts<T(!new)>(s: seq<T>, key: T -> int)
    ensures forall i, j :: 0 <= i < j < |Sort(s, ByKeyDesc(key))| ==>
      key(Sort(s, ByKeyDesc(key))[i]) >= key(Sort(s, ByKeyDesc(key))[j])
    ensures multiset(Sort(s, ByKeyDesc(key))) == multiset(s)
  {
    KeyDescTotal(key);
    SortSorted(s, ByKeyDesc(key));
    var r := Sort(s, ByKeyDesc(key));
    forall i, j | 0 <= i < j < |r|
      ensures key(r[i]) >= key(r[j])
    {
      assert ByKeyDesc(key)(r[i], r[j]);
    }
  }
}
