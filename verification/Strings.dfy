/**
 String vocabulary shared by the models: the byte-wise (scalar-wise) order that
 sorting uses, and the sorted enumeration of a set of keys.
 */
module Strings {
  import opened Wrappers

  // -------------------------------------------------------------- characters

  /** Unicode White_Space, the class `str::trim` strips. */
  predicate IsSpace(c: char) {
    var n := c as int;
    9 <= n <= 13 || n == 0x20 || n == 0x85 || n == 0xA0 || n == 0x1680 || 0x2000 <= n <= 0x200A
    || n == 0x2028 || n == 0x2029 || n == 0x202F || n == 0x205F || n == 0x3000
  }

  function TrimStart(s: string): string {
    if s != "" && IsSpace(s[0]) then TrimStart(s[1..]) else s
  }

  function TrimEnd(s: string): string {
    if s != "" && IsSpace(s[|s| - 1]) then TrimEnd(s[..|s| - 1]) else s
  }

  function Trim(s: string): string {
    TrimEnd(TrimStart(s))
  }

  /** No white space at either end. */
  predicate Trimmed(s: string) {
    s == "" || (!IsSpace(s[0]) && !IsSpace(s[|s| - 1]))
  }

  lemma {:induction false} TrimStartBare(s: string)
    ensures TrimStart(s) == "" || !IsSpace(TrimStart(s)[0])
    ensures s != "" && !IsSpace(s[|s| - 1]) ==> TrimStart(s) != "" && TrimStart(s)[|TrimStart(s)| - 1] == s[|s| - 1]
    ensures forall c :: c in TrimStart(s) ==> c in s
  {
    if s != "" && IsSpace(s[0]) {
      TrimStartBare(s[1..]);
      assert s == [s[0]] + s[1..];
    }
  }

  lemma {:induction false} TrimEndBare(s: string)
    ensures TrimEnd(s) == "" || !IsSpace(TrimEnd(s)[|TrimEnd(s)| - 1])
    ensures s != "" && !IsSpace(s[0]) ==> TrimEnd(s) != "" && TrimEnd(s)[0] == s[0]
    ensures forall c :: c in TrimEnd(s) ==> c in s
  {
    if s != "" && IsSpace(s[|s| - 1]) {
      TrimEndBare(s[..|s| - 1]);
      assert s == s[..|s| - 1] + [s[|s| - 1]];
    }
  }

  lemma TrimIsTrimmed(s: string)
    ensures Trimmed(Trim(s))
    ensures Trimmed(s) ==> Trim(s) == s
    ensures forall c :: c in Trim(s) ==> c in s
  {
    TrimStartBare(s);
    TrimEndBare(TrimStart(s));
  }

  predicate AllSpace(s: string) {
    forall c :: c in s ==> IsSpace(c)
  }

  lemma {:induction false} TrimStartDrops(s: string)
    ensures |TrimStart(s)| <= |s| && s[|s| - |TrimStart(s)|..] == TrimStart(s) && AllSpace(s[..|s| - |TrimStart(s)|])
  {
    if s != "" && IsSpace(s[0]) {
      TrimStartDrops(s[1..]);
      var n := |s[1..]| - |TrimStart(s[1..])|;
      assert s[..n + 1] == [s[0]] + s[1..][..n];
    }
  }

  lemma {:induction false} TrimEndDrops(s: string)
    ensures |TrimEnd(s)| <= |s| && s[..|TrimEnd(s)|] == TrimEnd(s) && AllSpace(s[|TrimEnd(s)|..])
  {
    if s != "" && IsSpace(s[|s| - 1]) {
      TrimEndDrops(s[..|s| - 1]);
      var n := |TrimEnd(s)|;
      assert s[n..] == s[..|s| - 1][n..] + [s[|s| - 1]];
    }
  }

  /** Trimming cuts off white space at both ends and nothing else. */
  lemma TrimCutsSpace(s: string) returns (left: string, right: string)
    ensures s == left + Trim(s) + right && AllSpace(left) && AllSpace(right) && Trimmed(Trim(s))
  {
    TrimStartDrops(s);
    TrimEndDrops(TrimStart(s));
    TrimIsTrimmed(s);
    left, right := s[..|s| - |TrimStart(s)|], TrimStart(s)[|Trim(s)|..];
  }

  lemma BlankIsSpace(s: string)
    ensures Trim(s) == "" <==> AllSpace(s)
  {
    var left, right := TrimCutsSpace(s);
    if Trim(s) != "" {
      assert Trim(s)[0] in s && !IsSpace(Trim(s)[0]);
    } else {
      assert s == left + right;
    }
  }

  /** The 25 characters of Unicode White_Space. */
  lemma WhiteSpaceIs(c: char)
    ensures IsSpace(c) <==> c as int in {
      0x9, 0xA, 0xB, 0xC, 0xD, 0x20, 0x85, 0xA0, 0x1680, 0x2000, 0x2001, 0x2002, 0x2003, 0x2004, 0x2005, 0x2006, 0x2007,
      0x2008, 0x2009, 0x200A, 0x2028, 0x2029, 0x202F, 0x205F, 0x3000}
  {
  }

  /** Bytes of the UTF-8 form (section 3 of RFC 3629). */
  function Utf8Width(c: char): (w: nat)
    ensures 1 <= w <= 4
  {
    if (c as int) < 0x80 then 1 else if (c as int) < 0x800 then 2 else if (c as int) < 0x10000 then 3 else 4
  }

  function Utf8Len(s: string): (n: nat)
    ensures n >= |s|
  {
    if s == "" then 0 else Utf8Len(s[..|s| - 1]) + Utf8Width(s[|s| - 1])
  }

  // --------------------------------------------------------------- splitting

  /** First position of `c`, if any. */
  function Find(s: string, c: char): (r: Option<nat>)
    ensures r.Some? ==> r.value < |s| && s[r.value] == c && forall i :: 0 <= i < r.value ==> s[i] != c
    ensures r.None? ==> c !in s
  {
    if s == "" then None
    else if s[0] == c then Some(0)
    else match Find(s[1..], c)
      case Some(i) => Some(i + 1)
      case None => None
  }

  /** A decimal number of at most `max`, with an optional plus sign, as `parse` reads unsigned integers. */
  function ParseNat(s: string, max: nat): Option<nat> {
    var digits := if s != "" && s[0] == '+' then s[1..] else s;
    if digits == "" then None else Decimal(digits, 0, max)
  }

  function Decimal(s: string, acc: nat, max: nat): Option<nat> {
    if acc > max then None
    else if s == "" then Some(acc)
    else if '0' <= s[0] <= '9' then Decimal(s[1..], 10 * acc + (s[0] as int - '0' as int), max)
    else None
  }

  /** `split(c)`: always at least one part. */
  function SplitOn(s: string, c: char): (parts: seq<string>)
    ensures |parts| >= 1
  {
    match Find(s, c)
    case None => [s]
    case Some(i) => [s[..i]] + SplitOn(s[i + 1..], c)
  }

  lemma FindFirst(s: string, c: char, i: nat)
    requires i < |s| && s[i] == c && forall j :: 0 <= j < i ==> s[j] != c
    ensures Find(s, c) == Some(i)
  {
    var r := Find(s, c);
    assert s[i] in s;
  }

  lemma {:induction false} SplitOnAppend(left: string, right: string, c: char)
    ensures SplitOn(left + [c] + right, c) == SplitOn(left, c) + SplitOn(right, c)
    decreases |left|
  {
    var s := left + [c] + right;
    match Find(left, c)
    case None =>
      FindFirst(s, c, |left|);
      assert s[..|left|] == left && s[|left| + 1..] == right;
    case Some(i) =>
      FindFirst(s, c, i);
      var tail := left[i + 1..];
      assert s[..i] == left[..i] && s[i + 1..] == tail + [c] + right;
      SplitOnAppend(tail, right, c);
      ConcatAssoc([left[..i]], SplitOn(tail, c), SplitOn(right, c));
  }

  lemma ConcatAssoc<T>(a: seq<T>, b: seq<T>, c: seq<T>)
    ensures a + (b + c) == a + b + c
  {
  }

  lemma SplitAt<T>(s: seq<T>, k: nat)
    requires k <= |s|
    ensures s == s[..k] + s[k..]
  {
  }

  // ------------------------------------------------------------------- order

  /** Lexicographic order on scalar values; on UTF-8 it is the order of `str::cmp`. */
  predicate Less(a: string, b: string) {
    if |b| == 0 then false
    else if |a| == 0 then true
    else if a[0] == b[0] then Less(a[1..], b[1..])
    else a[0] < b[0]
  }

  /** `a` is before `b` where they first differ, or ends there. */
  ghost predicate BeforeAt(a: string, b: string, k: nat) {
    k <= |a| && k < |b| && a[..k] == b[..k] && (k == |a| || a[k] < b[k])
  }

  lemma {:induction false} LessIsFirstDifference(a: string, b: string)
    ensures Less(a, b) <==> exists k: nat :: BeforeAt(a, b, k)
  {
    if a == "" || b == "" {
      assert b != "" ==> BeforeAt(a, b, 0);
    } else {
      LessIsFirstDifference(a[1..], b[1..]);
      if k: nat :| BeforeAt(a[1..], b[1..], k) && a[0] == b[0] {
        assert a[..k + 1] == [a[0]] + a[1..][..k] && b[..k + 1] == [b[0]] + b[1..][..k];
        assert BeforeAt(a, b, k + 1);
      }
      if k: nat :| BeforeAt(a, b, k) && k > 0 {
        assert a[..k][0] == b[..k][0];
        assert a[1..][..k - 1] == a[..k][1..] && b[1..][..k - 1] == b[..k][1..];
        assert BeforeAt(a[1..], b[1..], k - 1);
      }
      if a[0] < b[0] {
        assert BeforeAt(a, b, 0);
      }
    }
  }

  lemma {:induction false} LessIrreflexive(a: string)
    ensures !Less(a, a)
  {
    if |a| > 0 {
      LessIrreflexive(a[1..]);
    }
  }

  lemma {:induction false} LessTransitive(a: string, b: string, c: string)
    requires Less(a, b) && Less(b, c)
    ensures Less(a, c)
  {
    if |a| > 0 && a[0] == b[0] && b[0] == c[0] {
      LessTransitive(a[1..], b[1..], c[1..]);
    }
  }

  lemma {:induction false} LessTotal(a: string, b: string)
    ensures a == b || Less(a, b) || Less(b, a)
  {
    if |a| > 0 && |b| > 0 && a[0] == b[0] {
      LessTotal(a[1..], b[1..]);
      assert a == [a[0]] + a[1..] && b == [b[0]] + b[1..];
    }
  }

  predicate StrictlySorted(s: seq<string>) {
    forall i, j :: 0 <= i < j < |s| ==> Less(s[i], s[j])
  }

  predicate IsLeast(k: string, ks: set<string>) {
    k in ks && forall o :: o in ks ==> o == k || Less(k, o)
  }

  lemma LeastExists(ks: set<string>) returns (m: string)
    requires ks != {}
    ensures IsLeast(m, ks)
  {
    m :| m in ks;
    var seen := {m};
    while ks - seen != {}
      invariant seen <= ks && IsLeast(m, seen)
      decreases ks - seen
    {
      var k :| k in ks - seen;
      LessTotal(k, m);
      if Less(k, m) {
        forall o | o in seen ensures o == k || Less(k, o) {
          if o != m { LessTransitive(k, m, o); }
        }
        m := k;
      }
      seen := seen + {k};
    }
    assert forall o :: o in ks && o !in seen ==> o in ks - seen;
  }

  lemma LeastUnique(a: string, b: string, ks: set<string>)
    requires IsLeast(a, ks) && IsLeast(b, ks)
    ensures a == b
  {
    if a != b {
      LessTransitive(a, b, a);
      LessIrreflexive(a);
    }
  }

  function Least(ks: set<string>): (m: string)
    requires ks != {}
    ensures IsLeast(m, ks)
  {
    assert exists m :: IsLeast(m, ks) by { var m := LeastExists(ks); }
    assert forall a, b :: IsLeast(a, ks) && IsLeast(b, ks) ==> a == b by {
      forall a, b | IsLeast(a, ks) && IsLeast(b, ks) ensures a == b { LeastUnique(a, b, ks); }
    }
    var m :| m in ks && IsLeast(m, ks);
    m
  }

  /** The keys of a set in ascending order: what `keys.sort()` leaves, whatever the iteration order. */
  function SortedKeys(ks: set<string>): (r: seq<string>)
    ensures StrictlySorted(r)
    ensures forall k :: k in r <==> k in ks
    ensures |r| == |ks|
    decreases |ks|
  {
    if ks == {} then []
    else
      var m := Least(ks);
      var rest := SortedKeys(ks - {m});
      assert forall j :: 0 <= j < |rest| ==> rest[j] in ks - {m};
      [m] + rest
  }

  /** A strictly sorted enumeration is determined by its elements. */
  lemma {:induction false} SortedUnique(a: seq<string>, b: seq<string>)
    requires StrictlySorted(a) && StrictlySorted(b)
    requires forall k :: k in a <==> k in b
    ensures a == b
  {
    assert forall i :: 0 <= i < |a| ==> a[i] in b;
    assert forall i :: 0 <= i < |b| ==> b[i] in a;
    if a != [] && b != [] {
      HeadsAgree(a, b);
      LessIrreflexive(a[0]);
      assert a == [a[0]] + a[1..] && b == [b[0]] + b[1..];
      assert a[0] !in a[1..] && b[0] !in b[1..];
      forall k ensures k in a[1..] <==> k in b[1..] {
        assert k in a <==> k in b;
      }
      SortedUnique(a[1..], b[1..]);
    }
  }

  lemma HeadsAgree(a: seq<string>, b: seq<string>)
    requires StrictlySorted(a) && StrictlySorted(b) && a != [] && b != []
    requires forall k :: k in a <==> k in b
    ensures a[0] == b[0]
  {
    assert a[0] in b && b[0] in a;
    if a[0] != b[0] {
      LessTransitive(a[0], b[0], a[0]);
      LessIrreflexive(a[0]);
    }
  }

  /** Collecting keys in whatever order the map yields them and sorting gives `SortedKeys`. */
  method CollectSorted(ks: set<string>) returns (r: seq<string>)
    ensures r == SortedKeys(ks)
  {
    r := [];
    var rest := ks;
    while rest != {}
      invariant rest <= ks
      invariant StrictlySorted(r)
      invariant forall k :: k in r <==> k in ks - rest
    {
      var k :| k in rest;
      r := InsertSorted(r, k);
      rest := rest - {k};
    }
    SortedUnique(r, SortedKeys(ks));
  }

  method InsertSorted(s: seq<string>, k: string) returns (r: seq<string>)
    requires StrictlySorted(s) && k !in s
    ensures StrictlySorted(r)
    ensures forall o :: o in r <==> o in s || o == k
  {
    hide Less;
    var i := 0;
    while i < |s| && Less(s[i], k)
      invariant 0 <= i <= |s|
      invariant forall j :: 0 <= j < i ==> Less(s[j], k)
    {
      i := i + 1;
    }
    r := s[..i] + [k] + s[i..];
    forall j | i <= j < |s| ensures Less(k, s[j]) {
      LessTotal(s[i], k);
      assert s[i] in s;
      if i < j { LessTransitive(k, s[i], s[j]); }
    }
    assert s == s[..i] + s[i..];
  }
}
