/** Stable sorting by a comparison, as `sort_by` does it. */
module Sorting {

  ghost predicate TotalPreorder<T(!new)>(le: (T, T) -> bool) {
    && (forall x, y :: le(x, y) || le(y, x))
    && (forall x, y, z :: le(x, y) && le(y, z) ==> le(x, z))
  }

  ghost predicate SortedBy<T>(s: seq<T>, le: (T, T) -> bool) {
    forall i, j :: 0 <= i < j < |s| ==> le(s[i], s[j])
  }

  function Insert<T(!new)>(x: T, s: seq<T>, le: (T, T) -> bool): (r: seq<T>)
    requires TotalPreorder(le) && SortedBy(s, le)
    ensures SortedBy(r, le)
    ensures multiset(r) == multiset(s) + multiset{x}
    ensures forall y :: y in r <==> y in s || y == x
  {
    if s == [] then [x]
    else if le(x, s[0]) then [x] + s
    else
      var r := Insert(x, s[1..], le);
      assert s == [s[0]] + s[1..];
      assert forall i :: 0 <= i < |r| ==> r[i] in s[1..] || r[i] == x;
      [s[0]] + r
  }

  function Sort<T(!new)>(s: seq<T>, le: (T, T) -> bool): (r: seq<T>)
    requires TotalPreorder(le)
    ensures SortedBy(r, le)
    ensures multiset(r) == multiset(s)
  {
    if s == [] then []
    else
      assert s == [s[0]] + s[1..];
      Insert(s[0], Sort(s[1..], le), le)
  }

  ghost predicate NoRepeats<T(!new)>(s: seq<T>) {
    forall i, j :: 0 <= i < j < |s| ==> s[i] != s[j]
  }

  lemma {:induction false} CountsOnce<T(!new)>(s: seq<T>)
    requires NoRepeats(s)
    ensures forall x :: multiset(s)[x] == if x in s then 1 else 0
  {
    if s != [] {
      assert s == [s[0]] + s[1..];
      CountsOnce(s[1..]);
    }
  }

  lemma RepeatCountsTwice<T(!new)>(s: seq<T>, i: nat, j: nat)
    requires i < j < |s| && s[i] == s[j]
    ensures multiset(s)[s[i]] >= 2
  {
    assert s == s[..j] + [s[j]] + s[j + 1..];
    assert s[..j][i] == s[i];
    assert s[i] in multiset(s[..j]);
  }

  /** A permutation of a list without repeats has none, and the same elements. */
  lemma PermutedNoRepeats<T(!new)>(a: seq<T>, b: seq<T>)
    requires multiset(a) == multiset(b) && NoRepeats(b)
    ensures NoRepeats(a) && forall x :: x in a <==> x in b
  {
    CountsOnce(b);
    forall i, j | 0 <= i < j < |a| ensures a[i] != a[j] {
      if a[i] == a[j] {
        RepeatCountsTwice(a, i, j);
      }
    }
    forall x ensures x in a <==> x in b {
      assert x in multiset(a) <==> x in multiset(b);
    }
  }
}
