/**
 * JavaScript's default `Array.prototype.sort()` order on strings, stated
 * character by character, a proper prefix first. JavaScript compares UTF-16
 * code units, which order differently from Dafny's characters only above
 * U+FFFF; the group ids sorted here are ASCII letters.
 */
module StringOrder {
  import opened StableSort

  /** `a <= b` as strings. */
  predicate StrLe(a: string, b: string)
    decreases |a|
  {
    if a == [] then true
    else if b == [] then false
    else if a[0] != b[0] then a[0] < b[0]
    else StrLe(a[1..], b[1..])
  }

  lemma {:induction false} StrLeTotal(a: string, b: string)
    ensures StrLe(a, b) || StrLe(b, a)
    decreases |a|
  {
    if a != [] && b != [] && a[0] == b[0] {
      StrLeTotal(a[1..], b[1..]);
    }
  }

  lemma {:induction false} StrLeTransitive(a: string, b: string, c: string)
    requires StrLe(a, b) && StrLe(b, c)
    ensures StrLe(a, c)
    decreases |a|
  {
    if a != [] && b != [] && c != [] && a[0] == b[0] && b[0] == c[0] {
      StrLeTransitive(a[1..], b[1..], c[1..]);
    }
  }

  lemma {:induction false} StrLeAntisymmetric(a: string, b: string)
    requires StrLe(a, b) && StrLe(b, a)
    ensures a == b
    decreases |a|
  {
    if a != [] {
      StrLeAntisymmetric(a[1..], b[1..]);
      assert a == [a[0]] + a[1..] && b == [b[0]] + b[1..];
    }
  }

  /** The comparator the default sort uses. */
  function ByText(): (string, string) -> bool
  {
    (a: string, b: string) => StrLe(a, b)
  }

  lemma ByTextTotal()
    ensures TotalPreorder(ByText())
  {
    forall a: string, b: string
      ensures ByText()(a, b) || ByText()(b, a)
    {
      StrLeTotal(a, b);
    }
    forall a: string, b: string, c: string | ByText()(a, b) && ByText()(b, c)
      ensures ByText()(a, c)
    {
      StrLeTransitive(a, b, c);
    }
  }

  /** Strictly increasing: sorted and without repeats. */
  predicate StrictlyIncreasing(s: seq<string>)
  {
    forall i, j :: 0 <= i < j < |s| ==> StrLe(s[i], s[j]) && s[i] != s[j]
  }

  /** Sorting distinct strings yields them in strictly increasing order, none lost. */
  lemma SortDistinctStrings(s: seq<string>)
    requires forall i, j :: 0 <= i < j < |s| ==> s[i] != s[j]
    ensures StrictlyIncreasing(Sort(s, ByText()))
    ensures multiset(Sort(s, ByText())) == multiset(s)
  {
    ByTextTotal();
    SortSorted(s, ByText());
    var ne := (a: string, b: string) => a != b;
    assert Pairwise(s, ne);
    SortPairwise(s, ByText(), ne);
    var r := Sort(s, ByText());
    forall i, j | 0 <= i < j < |r|
      ensures StrLe(r[i], r[j]) && r[i] != r[j]
    {
      assert ByText()(r[i], r[j]);
      assert ne(r[i], r[j]);
    }
  }
}
