/** Failure-carrying results and the string operations of Rust's `str` that several models share. */
module Common {

  datatype Option<+T> = None | Some(value: T)

  datatype Result<+T, +E> = Ok(value: T) | Err(error: E)

  const U64_LIMIT: nat := 0x1_0000_0000_0000_0000

  /** `str::replace`: leftmost, non-overlapping occurrences of a non-empty pattern. */
  function Replace(s: string, pat: string, to: string): string
    requires pat != []
  {
    if s == [] then []
    else if pat <= s then to + Replace(s[|pat|..], pat, to)
    else [s[0]] + Replace(s[1..], pat, to)
  }

  lemma Associates<T>(a: seq<T>, b: seq<T>, c: seq<T>)
    ensures a + (b + c) == a + b + c
  {
  }

  /** `order` lists the keys once each, as the traversal of a hash map does. */
  ghost predicate Enumerates(order: seq<string>, keys: set<string>) {
    && (forall k :: k in order <==> k in keys)
    && (forall i, j :: 0 <= i < j < |order| ==> order[i] != order[j])
  }
}
