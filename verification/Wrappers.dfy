/** Optional values and outcomes that may be refused. */
module Wrappers {

  datatype Option<+T> = None | Some(value: T) {
    function GetOr(default: T): T {
      if Some? then value else default
    }
  }

  /** What a call that may throw returns: a value, or the error it raised. */
  datatype Result<+T, +E> = Ok(value: T) | Err(error: E)

  /** Reading a key of a JavaScript record: absent keys read as `undefined`. */
  function Look<V>(m: map<string, V>, key: string): Option<V> {
    if key in m then Some(m[key]) else None
  }

  /** No element of `s` is listed twice. */
  ghost predicate NoDup<T>(s: seq<T>) {
    forall i, j :: 0 <= i < j < |s| ==> s[i] != s[j]
  }

  lemma NoDupConcat<T>(a: seq<T>, b: seq<T>)
    requires NoDup(a) && NoDup(b) && forall x :: x in a ==> x !in b
    ensures NoDup(a + b)
  {
    forall i, j | 0 <= i < j < |a + b| ensures (a + b)[i] != (a + b)[j] {
      if i < |a| <= j {
        assert a[i] in a && b[j - |a|] in b;
      }
    }
  }

  lemma SplitLast<T>(s: seq<T>)
    requires s != []
    ensures s == s[..|s| - 1] + [s[|s| - 1]]
  {
  }

  lemma ConcatAssoc<T>(a: seq<T>, b: seq<T>, c: seq<T>)
    ensures (a + b) + c == a + (b + c)
  {
  }

  /** `merged` is `spec` as far as the keys outside `todo` go. */
  ghost predicate AgreesOutside<V(!new)>(merged: map<string, V>, spec: map<string, V>, todo: set<string>) {
    && (forall k :: k in merged <==> k in spec && k !in todo)
    && forall k :: k in merged ==> merged[k] == spec[k]
  }

  lemma SettleKey<V(!new)>(merged: map<string, V>, spec: map<string, V>, todo: set<string>, key: string)
    requires key in todo && AgreesOutside(merged, spec, todo)
    ensures AgreesOutside(if key in spec then merged[key := spec[key]] else merged, spec, todo - {key})
  {
  }

  lemma EqualByLook<V>(a: map<string, V>, b: map<string, V>)
    requires forall k :: Look(a, k) == Look(b, k)
    ensures a == b
  {
    forall k ensures k in a <==> k in b {
      assert Look(a, k) == Look(b, k);
    }
    forall k | k in a ensures a[k] == b[k] {
      assert Look(a, k) == Look(b, k);
    }
  }
}
