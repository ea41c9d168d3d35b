/** Sorting as Go's `slices` package specifies it: the result is ordered and has the same elements. */
module Sorting {

  // ---- Order ----

  predicate Less(a: string, b: string) {
    if a == "" then b != ""
    else if b == "" then false
    else a[0] < b[0] || (a[0] == b[0] && Less(a[1..], b[1..]))
  }

  lemma {:induction false} LessIsTotal(a: string, b: string)
    ensures Less(a, b) || a == b || Less(b, a)
    ensures !(Less(a, b) && Less(b, a)) && !Less(a, a)
  {
    if a != "" {
      LessIsTotal(a[1..], a[1..]);
    }
    if a != "" && b != "" && a[0] == b[0] {
      LessIsTotal(a[1..], b[1..]);
      assert a == [a[0]] + a[1..] && b == [b[0]] + b[1..];
    }
  }

  lemma {:induction false} LessIsTransitive(a: string, b: string, c: string)
    requires Less(a, b) && Less(b, c)
    ensures Less(a, c)
  {
    if a != "" && a[0] == b[0] == c[0] {
      LessIsTransitive(a[1..], b[1..], c[1..]);
    }
  }

  predicate Ascends(s: seq<string>) {
    forall i, j :: 0 <= i < j < |s| ==> Less(s[i], s[j])
  }

  /** An ascending sequence is determined by its elements. */
  lemma {:induction false} AscendingIsUnique(a: seq<string>, b: seq<string>)
    requires Ascends(a) && Ascends(b)
    requires forall s :: s in a <==> s in b
    ensures a == b
    decreases |a|
  {
    assert a != [] ==> a[0] in b;
    assert b != [] ==> b[0] in a;
    if a != [] {
      FirstIsLeast(a, b[0]);
      FirstIsLeast(b, a[0]);
      LessIsTotal(a[0], b[0]);
      forall s
        ensures s in a[1..] <==> s in b[1..]
      {
        TailElements(a, s);
        TailElements(b, s);
      }
      AscendingIsUnique(a[1..], b[1..]);
      assert a == [a[0]] + a[1..] && b == [b[0]] + b[1..];
    }
  }

  lemma FirstIsLeast(s: seq<string>, x: string)
    requires Ascends(s) && x in s
    ensures x == s[0] || Less(s[0], x)
  {
    hide Less;
    var i :| 0 <= i < |s| && s[i] == x;
  }

  lemma TailElements(s: seq<string>, x: string)
    requires Ascends(s) && s != []
    ensures x in s[1..] <==> x in s && x != s[0]
  {
    hide Less;
    assert s == [s[0]] + s[1..];
    if x in s[1..] {
      var i :| 0 <= i < |s[1..]| && s[1..][i] == x;
      LessIsTotal(s[0], s[i + 1]);
    }
  }

  // ---- Sorting ----

  predicate SortedBy<T(!new)>(s: seq<T>, key: T -> string) {
    forall i, j :: 0 <= i < j < |s| ==> !Less(key(s[j]), key(s[i]))
  }

  method Insert<T(!new)>(sorted: seq<T>, x: T, key: T -> string) returns (result: seq<T>)
    requires SortedBy(sorted, key)
    ensures SortedBy(result, key) && multiset(result) == multiset(sorted) + multiset{x}
  {
    hide Less;
    hide SortedBy;
    var i := |sorted|;
    while i > 0 && Less(key(x), key(sorted[i - 1]))
      invariant 0 <= i <= |sorted|
      invariant forall k :: i <= k < |sorted| ==> Less(key(x), key(sorted[k]))
    {
      i := i - 1;
    }
    result := sorted[..i] + [x] + sorted[i..];
    InsertedElements(sorted, i, x);
    InsertedIsSorted(sorted, i, x, key);
  }

  lemma InsertedElements<T>(s: seq<T>, i: nat, x: T)
    requires i <= |s|
    ensures multiset(s[..i] + [x] + s[i..]) == multiset(s) + multiset{x}
  {
    assert s == s[..i] + s[i..];
  }

  lemma InsertedIsSorted<T(!new)>(sorted: seq<T>, i: nat, x: T, key: T -> string)
    requires SortedBy(sorted, key) && i <= |sorted|
    requires i > 0 ==> !Less(key(x), key(sorted[i - 1]))
    requires forall k :: i <= k < |sorted| ==> Less(key(x), key(sorted[k]))
    ensures SortedBy(sorted[..i] + [x] + sorted[i..], key)
  {
    hide Less;
    forall k | 0 <= k < i
      ensures !Less(key(x), key(sorted[k]))
    {
      if Less(key(x), key(sorted[k])) && k < i - 1 {
        LessIsTotal(key(sorted[k]), key(sorted[i - 1]));
        if Less(key(sorted[k]), key(sorted[i - 1])) {
          LessIsTransitive(key(x), key(sorted[k]), key(sorted[i - 1]));
        }
      }
    }
    forall k | i <= k < |sorted|
      ensures !Less(key(sorted[k]), key(x))
    {
      LessIsTotal(key(sorted[k]), key(x));
    }
  }

  /** Some order of equal keys: the library's sort is not stable, so nothing more is said. */
  method Sort<T(!new)>(s: seq<T>, key: T -> string) returns (sorted: seq<T>)
    ensures SortedBy(sorted, key) && multiset(sorted) == multiset(s)
  {
    sorted := [];
    for i := 0 to |s|
      invariant SortedBy(sorted, key) && multiset(sorted) == multiset(s[..i])
    {
      assert s[..i + 1] == s[..i] + [s[i]];
      sorted := Insert(sorted, s[i], key);
    }
    assert s[..|s|] == s;
  }

  ghost predicate KeysTellApart<T(!new)>(s: seq<T>, key: T -> string) {
    forall x, y :: x in s && y in s && key(x) == key(y) ==> x == y
  }

  lemma SortedStart<T(!new)>(s: seq<T>, key: T -> string, x: T)
    requires SortedBy(s, key) && x in s
    ensures !Less(key(x), key(s[0]))
  {
    LessIsTotal(key(x), key(x));
    hide Less;
    var i :| 0 <= i < |s| && s[i] == x;
  }

  lemma SameLength<T>(a: seq<T>, b: seq<T>)
    requires multiset(a) == multiset(b)
    ensures |a| == |b|
  {
    assert |a| == |multiset(a)| == |multiset(b)| == |b|;
  }

  lemma SameFirst<T(!new)>(a: seq<T>, b: seq<T>, key: T -> string)
    requires SortedBy(a, key) && SortedBy(b, key) && a != [] && b != []
    requires multiset(a) == multiset(b) && KeysTellApart(a, key)
    ensures a[0] == b[0]
  {
    assert a[0] in multiset(b) && b[0] in multiset(a);
    SortedStart(a, key, b[0]);
    SortedStart(b, key, a[0]);
    LessIsTotal(key(a[0]), key(b[0]));
    hide Less;
    hide SortedBy;
  }

  lemma TailMultiset<T>(s: seq<T>)
    requires s != []
    ensures multiset(s[1..]) == multiset(s) - multiset{s[0]}
  {
    assert s == [s[0]] + s[1..];
  }

  lemma TailTellsApart<T(!new)>(s: seq<T>, key: T -> string)
    requires KeysTellApart(s, key) && s != []
    ensures KeysTellApart(s[1..], key)
  {
    forall x | x in s[1..]
      ensures x in s
    {}
  }

  /** When the keys tell the elements apart, the sorted order does not depend on the order they came in. */
  lemma {:induction false} SortedIsUnique<T(!new)>(a: seq<T>, b: seq<T>, key: T -> string)
    requires SortedBy(a, key) && SortedBy(b, key)
    requires multiset(a) == multiset(b) && KeysTellApart(a, key)
    ensures a == b
    decreases |a|
  {
    hide SortedBy;
    hide KeysTellApart;
    SameLength(a, b);
    if a != [] {
      SameFirst(a, b, key);
      TailMultiset(a);
      TailMultiset(b);
      TailTellsApart(a, key);
      TailStaysSorted(a, key);
      TailStaysSorted(b, key);
      SortedIsUnique(a[1..], b[1..], key);
      assert a == [a[0]] + a[1..] && b == [b[0]] + b[1..];
    }
  }

  lemma TailStaysSorted<T(!new)>(s: seq<T>, key: T -> string)
    requires SortedBy(s, key) && s != []
    ensures SortedBy(s[1..], key)
  {
    hide Less;
  }

  predicate AllDiffer(s: seq<string>) {
    forall i, j :: 0 <= i < j < |s| ==> s[i] != s[j]
  }

  lemma {:induction false} AllDifferCounts(s: seq<string>, x: string)
    ensures AllDiffer(s) ==> multiset(s)[x] <= 1
    ensures x in s <==> multiset(s)[x] > 0
    ensures AllDiffer(s) ==> AllDiffer(s[..if |s| > 0 then |s| - 1 else 0])
  {
    if s != [] {
      AllDifferCounts(s[..|s| - 1], x);
      assert s == s[..|s| - 1] + [s[|s| - 1]];
    }
  }

  lemma TwoOccurrences(s: seq<string>, i: int, j: int)
    requires 0 <= i < j < |s| && s[i] == s[j]
    ensures multiset(s)[s[i]] >= 2
  {
    assert s == s[..j] + s[j..];
    assert s[i] in s[..j] && s[j] in s[j..];
  }

  lemma SortedDifferingAscends(s: seq<string>, sorted: seq<string>)
    requires AllDiffer(s) && multiset(sorted) == multiset(s) && SortedBy(sorted, (x: string) => x)
    ensures Ascends(sorted)
  {
    hide Less;
    forall i, j | 0 <= i < j < |sorted|
      ensures Less(sorted[i], sorted[j])
    {
      LessIsTotal(sorted[i], sorted[j]);
      if sorted[i] == sorted[j] {
        TwoOccurrences(sorted, i, j);
        AllDifferCounts(s, sorted[i]);
      }
    }
  }
}
