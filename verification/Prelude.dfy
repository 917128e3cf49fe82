/** Shared vocabulary: optional values, fallible results, distinct sequences, output names. */
module Prelude {

  datatype Option<+T> = None | Some(value: T)

  datatype Result<+T, +E> = Success(value: T) | Failure(error: E)

  /** No element occurs at two positions. */
  predicate Distinct<T(==)>(s: seq<T>) {
    forall i, j :: 0 <= i < j < |s| ==> s[i] != s[j]
  }

  function Flatten<T>(groups: seq<seq<T>>): seq<T> {
    if groups == [] then [] else groups[0] + Flatten(groups[1..])
  }

  /** The one is found before the other. */
  ghost predicate Precedes<T(!new)>(s: seq<T>, x: T, y: T) {
    exists i, j :: 0 <= i < j < |s| && s[i] == x && s[j] == y
  }

  /** Nothing has changed places. */
  ghost predicate KeepsOrder<T(!new)>(part: seq<T>, whole: seq<T>) {
    forall i, j :: 0 <= i < j < |part| ==> Precedes(whole, part[i], part[j])
  }

  lemma PrecedesLater<T(!new)>(first: T, rest: seq<T>, x: T, y: T)
    requires Precedes(rest, x, y) || (x == first && y in rest)
    ensures Precedes([first] + rest, x, y)
  {
    var all := [first] + rest;
    if x == first && y in rest {
      var j :| 0 <= j < |rest| && rest[j] == y;
      assert all[0] == x && all[j + 1] == y;
    } else {
      var i, j :| 0 <= i < j < |rest| && rest[i] == x && rest[j] == y;
      assert all[i + 1] == x && all[j + 1] == y;
    }
  }

  /** Leaving out or keeping the first element changes no order. */
  lemma KeepsOrderNext<T(!new)>(first: T, part: seq<T>, rest: seq<T>)
    requires KeepsOrder(part, rest) && forall x :: x in part ==> x in rest
    ensures KeepsOrder(part, [first] + rest) && KeepsOrder([first] + part, [first] + rest)
  {
    forall i, j | 0 <= i < j < |part| ensures Precedes([first] + rest, part[i], part[j]) {
      PrecedesLater(first, rest, part[i], part[j]);
    }
    forall i, j | 0 <= i < j < |[first] + part|
      ensures Precedes([first] + rest, ([first] + part)[i], ([first] + part)[j])
    {
      if i == 0 {
        assert ([first] + part)[j] in part;
        PrecedesLater(first, rest, first, ([first] + part)[j]);
      } else {
        PrecedesLater(first, rest, part[i - 1], part[j - 1]);
      }
    }
  }

  function Get<K, V>(m: map<K, V>, k: K): Option<V> {
    if k in m then Some(m[k]) else None
  }

  /** The characters Unicode classes as White_Space, which is what trimming an output name removes. */
  predicate IsWhitespace(c: char) {
    || '\U{9}' <= c <= '\U{D}' || c == ' ' || c == '\U{85}' || c == '\U{A0}' || c == '\U{1680}'
    || '\U{2000}' <= c <= '\U{200A}' || c == '\U{2028}' || c == '\U{2029}' || c == '\U{202F}'
    || c == '\U{205F}' || c == '\U{3000}'
  }

  predicate IsBlank(name: string) {
    forall i :: 0 <= i < |name| ==> IsWhitespace(name[i])
  }
}
