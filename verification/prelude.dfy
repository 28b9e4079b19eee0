/** Small vocabulary shared by every module of the model. */
module Prelude {

  /** A value that may be absent: SQL NULL, a missing JSON field, `Option::None`. */
  datatype Option<+T> = None | Some(value: T)

  datatype Result<+T, +E> = Ok(value: T) | Err(error: E)

  function Min(a: int, b: int): int {
    if a <= b then a else b
  }

  function Max(a: int, b: int): int {
    if a <= b then b else a
  }

  lemma Associate<T>(a: seq<T>, b: seq<T>, c: seq<T>)
    ensures a + (b + c) == a + b + c
  {
  }

  /** A set of naturals below `n` has at most `n` members. */
  lemma BoundedSetSize(s: set<nat>, n: nat)
    requires forall k :: k in s ==> k < n
    ensures |s| <= n
  {
    if n == 0 {
      assert s == {};
    } else {
      BoundedSetSize(s - {n - 1}, n - 1);
    }
  }

  /** A set that holds every natural below `n` has at least `n` members. */
  lemma CoveringSetSize(s: set<nat>, n: nat)
    requires forall k: nat :: k < n ==> k in s
    ensures |s| >= n
  {
    if n > 0 {
      CoveringSetSize(s - {n - 1}, n - 1);
    }
  }
}
