/** The built-in sort by a numeric key, for elements whose keys differ. */
module Sorting {

  predicate Ascending<T>(key: T -> int, s: seq<T>) {
    forall i, j :: 0 <= i < j < |s| ==> key(s[i]) < key(s[j])
  }

  ghost predicate DistinctKeys<T>(key: T -> int, s: seq<T>) {
    forall i, j :: 0 <= i < j < |s| ==> key(s[i]) != key(s[j])
  }

  function Insert<T>(key: T -> int, x: T, s: seq<T>): seq<T> {
    if s == [] then [x]
    else if key(x) < key(s[0]) then [x] + s
    else [s[0]] + Insert(key, x, s[1..])
  }

  function Sorted<T>(key: T -> int, s: seq<T>): seq<T> {
    if s == [] then [] else Insert(key, s[0], Sorted(key, s[1..]))
  }

  lemma {:induction false} InsertKeeps<T>(key: T -> int, x: T, s: seq<T>)
    ensures multiset(Insert(key, x, s)) == multiset(s) + multiset{x}
  {
    if s != [] {
      InsertKeeps(key, x, s[1..]);
      assert s == [s[0]] + s[1..];
    }
  }

  lemma {:induction false} InsertAscends<T>(key: T -> int, x: T, s: seq<T>)
    requires Ascending(key, s) && forall y :: y in s ==> key(y) != key(x)
    ensures Ascending(key, Insert(key, x, s))
  {
    if s != [] && key(x) > key(s[0]) {
      var rest := Insert(key, x, s[1..]);
      InsertAscends(key, x, s[1..]);
      InsertKeeps(key, x, s[1..]);
      forall j | 0 <= j < |rest| ensures key(s[0]) < key(rest[j]) {
        assert rest[j] in multiset(s[1..]) + multiset{x};
        assert rest[j] == x || rest[j] in s[1..];
      }
    }
  }

  /** Nothing is lost or repeated. */
  lemma {:induction false} SortedKeeps<T>(key: T -> int, s: seq<T>)
    ensures multiset(Sorted(key, s)) == multiset(s) && |Sorted(key, s)| == |s|
  {
    if s != [] {
      SortedKeeps(key, s[1..]);
      InsertKeeps(key, s[0], Sorted(key, s[1..]));
      assert s == [s[0]] + s[1..];
    }
    assert |multiset(Sorted(key, s))| == |multiset(s)|;
  }

  lemma {:induction false} SortedAscends<T>(key: T -> int, s: seq<T>)
    requires DistinctKeys(key, s)
    ensures Ascending(key, Sorted(key, s))
  {
    if s != [] {
      SortedAscends(key, s[1..]);
      SortedKeeps(key, s[1..]);
      forall y | y in Sorted(key, s[1..]) ensures key(y) != key(s[0]) {
        assert y in multiset(s[1..]);
        var i :| 0 <= i < |s[1..]| && s[1..][i] == y;
        assert s[i + 1] == y;
      }
      InsertAscends(key, s[0], Sorted(key, s[1..]));
    }
  }

  lemma LeastFirst<T>(key: T -> int, a: seq<T>, b: seq<T>)
    requires Ascending(key, a) && Ascending(key, b) && multiset(a) == multiset(b) && a != [] && b != []
    ensures a[0] == b[0]
  {
    assert a[0] in multiset(b) && b[0] in multiset(a);
    var i :| 0 <= i < |b| && b[i] == a[0];
    var j :| 0 <= j < |a| && a[j] == b[0];
  }

  lemma WithoutFirst<T>(s: seq<T>)
    requires s != []
    ensures multiset(s[1..]) == multiset(s) - multiset{s[0]}
  {
    assert s == [s[0]] + s[1..];
  }

  /** There is one ascending order. */
  lemma {:induction false} AscendingUnique<T>(key: T -> int, a: seq<T>, b: seq<T>)
    requires Ascending(key, a) && Ascending(key, b) && multiset(a) == multiset(b)
    ensures a == b
  {
    assert |multiset(a)| == |a| && |multiset(b)| == |b|;
    if a != [] {
      LeastFirst(key, a, b);
      WithoutFirst(a);
      WithoutFirst(b);
      assert a == [a[0]] + a[1..] && b == [b[0]] + b[1..];
      AscendingUnique(key, a[1..], b[1..]);
    }
  }
}
