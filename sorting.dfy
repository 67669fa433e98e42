/** Collections.sort over a Comparable's compareTo, as the content provider
    uses it to order routes and directions before numbering rows. */
module Sorting {

  /** What Collections.sort needs of compareTo on the elements it sorts:
      the sign flips when the arguments are swapped, and "not greater" is
      transitive. */
  ghost predicate IsComparatorOn<T>(elems: set<T>, cmp: (T, T) -> int)
  {
    && (forall a, b | a in elems && b in elems :: cmp(a, b) == -cmp(b, a))
    && (forall a, b, c | a in elems && b in elems && c in elems ::
          cmp(a, b) <= 0 && cmp(b, c) <= 0 ==> cmp(a, c) <= 0)
  }

  ghost predicate SortedBy<T>(s: seq<T>, cmp: (T, T) -> int)
  {
    forall i, j :: 0 <= i < j < |s| ==> cmp(s[i], s[j]) <= 0
  }

  /** Inserts x into a sorted sequence after every element not greater
      than it, which keeps equal elements in their original order. */
  method Insert<T(==)>(s: seq<T>, x: T, cmp: (T, T) -> int, ghost elems: set<T>) returns (r: seq<T>)
    requires IsComparatorOn(elems, cmp)
    requires x in elems && forall y :: y in s ==> y in elems
    requires SortedBy(s, cmp)
    ensures SortedBy(r, cmp)
    ensures multiset(r) == multiset(s) + multiset{x}
    ensures forall y :: y in r ==> y in elems
  {
    var k := |s|;
    while k > 0 && cmp(s[k - 1], x) > 0
      invariant 0 <= k <= |s|
      invariant forall i :: k <= i < |s| ==> cmp(x, s[i]) < 0
    {
      k := k - 1;
    }
    r := s[..k] + [x] + s[k..];
    NotAfterInsertionPoint(s, x, k, cmp, elems);
    InsertedSorted(s, x, k, cmp);
    InsertedPermutes(s, x, k);
  }

  lemma InsertedSorted<T>(s: seq<T>, x: T, k: nat, cmp: (T, T) -> int)
    requires SortedBy(s, cmp)
    requires k <= |s|
    requires forall i :: k <= i < |s| ==> cmp(x, s[i]) < 0
    requires forall i :: 0 <= i < k ==> cmp(s[i], x) <= 0
    ensures SortedBy(s[..k] + [x] + s[k..], cmp)
  {
    var r := s[..k] + [x] + s[k..];
    forall i, j | 0 <= i < j < |r|
      ensures cmp(r[i], r[j]) <= 0
    {
      if j < k {
        assert r[i] == s[i] && r[j] == s[j];
      } else if j == k {
        assert r[i] == s[i] && r[j] == x;
      } else if i == k {
        assert r[i] == x && r[j] == s[j - 1];
      } else if i < k {
        assert r[i] == s[i] && r[j] == s[j - 1];
      } else {
        assert r[i] == s[i - 1] && r[j] == s[j - 1];
      }
    }
  }

  lemma InsertedPermutes<T>(s: seq<T>, x: T, k: nat)
    requires k <= |s|
    ensures multiset(s[..k] + [x] + s[k..]) == multiset(s) + multiset{x}
    ensures forall y :: y in s[..k] + [x] + s[k..] ==> y == x || y in s
  {
    assert s == s[..k] + s[k..];
    assert multiset(s[..k] + [x] + s[k..]) == multiset(s[..k]) + multiset{x} + multiset(s[k..]);
  }

  /** Everything before the insertion point is ordered before x. */
  lemma NotAfterInsertionPoint<T>(s: seq<T>, x: T, k: nat, cmp: (T, T) -> int, elems: set<T>)
    requires IsComparatorOn(elems, cmp)
    requires x in elems && forall y :: y in s ==> y in elems
    requires SortedBy(s, cmp)
    requires k <= |s|
    requires k > 0 ==> cmp(s[k - 1], x) <= 0
    ensures forall i :: 0 <= i < k ==> cmp(s[i], x) <= 0
  {
    forall i | 0 <= i < k
      ensures cmp(s[i], x) <= 0
    {
      assert s[i] in elems && s[k - 1] in elems;
      assert cmp(s[i], s[k - 1]) <= 0 || i == k - 1;
    }
  }

  /** Collections.sort: the result is ordered and holds exactly the
      elements of the input. */
  method Sort<T(==)>(s: seq<T>, cmp: (T, T) -> int) returns (r: seq<T>)
    requires IsComparatorOn((set x | x in s), cmp)
    ensures SortedBy(r, cmp)
    ensures multiset(r) == multiset(s)
    ensures |r| == |s|
  {
    r := [];
    var i := 0;
    while i < |s|
      invariant 0 <= i <= |s|
      invariant SortedBy(r, cmp)
      invariant multiset(r) == multiset(s[..i])
      invariant forall y :: y in r ==> y in s
    {
      r := Insert(r, s[i], cmp, (set x | x in s));
      assert s[..i + 1] == s[..i] + [s[i]];
      i := i + 1;
    }
    assert s[..i] == s;
    assert |r| == |multiset(r)|;
  }
}
