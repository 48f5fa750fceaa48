/** Optional values and results with an error, used throughout the model. */
module Wrappers {

  /** A value that may be absent: an undefined JSON field, a missing map entry. */
  datatype Option<+T> = None | Some(value: T)

  /** Either a value or the reason the run stopped. */
  datatype Result<+T, +E> = Ok(value: T) | Err(error: E)

  /** The elements of a sequence, as a set. */
  function Members<T>(s: seq<T>): set<T>
  {
    set x | x in s
  }

  /** No element occurs twice: the shape of an insertion-ordered JavaScript `Set`. */
  predicate NoDup<T(==)>(s: seq<T>)
  {
    forall i, j :: 0 <= i < j < |s| ==> s[i] != s[j]
  }

  /** Concatenation regroups. */
  lemma ConcatAssoc<T>(a: seq<T>, b: seq<T>, c: seq<T>)
    ensures a + b + c == a + (b + c)
  {
  }

  /** A prefix of a prefix is a prefix. */
  lemma PrefixTrans<T>(a: seq<T>, b: seq<T>, c: seq<T>)
    requires |a| <= |b| && b[..|a|] == a
    requires |b| <= |c| && c[..|b|] == b
    ensures |a| <= |c| && c[..|a|] == a
  {
    assert c[..|a|] == c[..|b|][..|a|];
  }
}
