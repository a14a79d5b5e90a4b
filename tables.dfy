/** Generic operations on a table held as a sequence of rows: the filter,
    count, sum and distinct-count that the listing handlers apply to a
    queryset. */
module Tables {

  /** `queryset.filter(...)`: the rows satisfying `p`, in table order. */
  function Filter<T(!new)>(s: seq<T>, p: T -> bool): (r: seq<T>)
    ensures |r| <= |s|
    ensures forall x :: x in r <==> x in s && p(x)
    ensures forall x {:trigger multiset(r)[x]} :: multiset(r)[x] == if p(x) then multiset(s)[x] else 0
  {
    if s == [] then []
    else
      assert s == [s[0]] + s[1..];
      if p(s[0]) then [s[0]] + Filter(s[1..], p)
      else Filter(s[1..], p)
  }

  /** `sum(f(x) for x in queryset)`. */
  function Sum<T>(s: seq<T>, f: T -> int): int {
    if s == [] then 0 else f(s[0]) + Sum(s[1..], f)
  }

  /** The set of values of `key` over the rows:
      `queryset.values(key).distinct()`. */
  function Keys<T(!new)>(s: seq<T>, key: T -> int): (r: set<int>)
    ensures |r| <= |s|
    ensures forall k :: k in r <==> exists x :: x in s && key(x) == k
  {
    if s == [] then {}
    else
      var rest := Keys(s[1..], key);
      assert forall x :: x in s <==> x == s[0] || x in s[1..];
      {key(s[0])} + rest
  }

  /** A sum of rows whose values lie in [lo, hi] lies in [lo * |s|, hi * |s|]. */
  lemma {:induction false} SumBounds<T(!new)>(s: seq<T>, f: T -> int, lo: int, hi: int)
    requires forall x :: x in s ==> lo <= f(x) <= hi
    ensures lo * |s| <= Sum(s, f) <= hi * |s|
  {
    if s != [] {
      var rest := s[1..];
      assert forall x :: x in rest ==> x in s;
      SumBounds(rest, f, lo, hi);
      assert s[0] in s;
      MulSucc(lo, |rest|);
      MulSucc(hi, |rest|);
    }
  }

  lemma MulSucc(a: int, n: nat)
    ensures a * (n + 1) == a * n + a
  {
  }

  lemma {:induction false} FilterAppend<T(!new)>(a: seq<T>, b: seq<T>, p: T -> bool)
    ensures Filter(a + b, p) == Filter(a, p) + Filter(b, p)
  {
    if a != [] {
      assert (a + b)[1..] == a[1..] + b;
      FilterAppend(a[1..], b, p);
    } else {
      assert a + b == b;
    }
  }

  lemma {:induction false} FilterKeepsAll<T(!new)>(s: seq<T>, p: T -> bool)
    requires forall x :: x in s ==> p(x)
    ensures Filter(s, p) == s
  {
    if s != [] {
      assert forall x :: x in s[1..] ==> x in s;
      FilterKeepsAll(s[1..], p);
    }
  }

  lemma {:induction false} FilterDropsAll<T(!new)>(s: seq<T>, p: T -> bool)
    requires forall x :: x in s ==> !p(x)
    ensures Filter(s, p) == []
  {
    if s != [] {
      assert forall x :: x in s[1..] ==> x in s;
      FilterDropsAll(s[1..], p);
    }
  }

  /** Filtering by `q` after `p`, where `q` implies `p`, is filtering by `q`. */
  lemma {:induction false} FilterTwice<T(!new)>(s: seq<T>, p: T -> bool, q: T -> bool)
    requires forall x :: q(x) ==> p(x)
    ensures Filter(Filter(s, p), q) == Filter(s, q)
  {
    if s != [] {
      FilterTwice(s[1..], p, q);
    }
  }

  /** Rows on which `p` and `q` disagree never exist, so the two filters split
      the table: their sizes add up to its size. */
  lemma {:induction false} FilterSplit<T(!new)>(s: seq<T>, p: T -> bool, q: T -> bool)
    requires forall x :: q(x) == !p(x)
    ensures |Filter(s, p)| + |Filter(s, q)| == |s|
  {
    if s != [] {
      FilterSplit(s[1..], p, q);
    }
  }

  /** The key strictly increases along the sequence (here: primary keys in
      insertion order). */
  predicate Increasing<T>(s: seq<T>, key: T -> int) {
    forall i, j :: 0 <= i < j < |s| ==> key(s[i]) < key(s[j])
  }

  lemma {:induction false} FilterIncreasing<T(!new)>(s: seq<T>, p: T -> bool, key: T -> int)
    requires Increasing(s, key)
    ensures Increasing(Filter(s, p), key)
  {
    if s != [] {
      var rest := Filter(s[1..], p);
      assert Increasing(s[1..], key) by {
        forall i, j | 0 <= i < j < |s[1..]| ensures key(s[1..][i]) < key(s[1..][j]) {
          assert s[1..][i] == s[i + 1] && s[1..][j] == s[j + 1];
        }
      }
      FilterIncreasing(s[1..], p, key);
      if p(s[0]) {
        forall k | 0 <= k < |rest| ensures key(s[0]) < key(rest[k]) {
          assert rest[k] in s[1..];
          var m :| 0 <= m < |s[1..]| && s[1..][m] == rest[k];
          assert s[m + 1] == rest[k];
        }
        var r := [s[0]] + rest;
        forall i, j | 0 <= i < j < |r| ensures key(r[i]) < key(r[j]) {
          if i == 0 {
            assert r[j] == rest[j - 1];
          } else {
            assert r[i] == rest[i - 1] && r[j] == rest[j - 1];
          }
        }
      }
    }
  }

  /** The table without the row at position k (`row.delete()`). */
  function Remove<T>(s: seq<T>, k: nat): (r: seq<T>)
    requires k < |s|
    ensures |r| == |s| - 1
    ensures forall i :: 0 <= i < k ==> r[i] == s[i]
    ensures forall i :: k <= i < |r| ==> r[i] == s[i + 1]
    ensures forall x :: x in r ==> x in s
  {
    s[..k] + s[k + 1..]
  }

  lemma RemoveIncreasing<T>(s: seq<T>, k: nat, key: T -> int)
    requires k < |s| && Increasing(s, key)
    ensures Increasing(Remove(s, k), key)
  {
    var r := Remove(s, k);
    forall i, j | 0 <= i < j < |r| ensures key(r[i]) < key(r[j]) {
      var i' := if i < k then i else i + 1;
      var j' := if j < k then j else j + 1;
      assert r[i] == s[i'] && r[j] == s[j'];
    }
  }
}
