/** Vocabulary shared by the other modules.  A byte of the wire is modelled by a `char`;
    no definition depends on a byte being below 256, so every statement made for all
    strings holds in particular for the strings a connection can carry. */
module Base {

  type Bytes = string

  datatype Option<+T> = None | Some(value: T)

  datatype Result<+T, +E> = Ok(value: T) | Err(error: E)

  /** The separators of an argument line. */
  predicate IsSpace(c: char) { c == ' ' || c == '\t' || c == '\r' || c == '\n' }

  /** The separators allowed between a verb and its arguments. */
  predicate IsBlank(c: char) { c == ' ' || c == '\t' }

  predicate IsDigit(c: char) { '0' <= c <= '9' }

  predicate NoSpace(s: Bytes) { forall k :: 0 <= k < |s| ==> !IsSpace(s[k]) }

  /** Concatenation of a list of buffers. */
  function Concat(chunks: seq<Bytes>): Bytes {
    if chunks == [] then [] else chunks[0] + Concat(chunks[1..])
  }

  /** A subset has no more elements. */
  lemma SubsetSize<T>(a: set<T>, b: set<T>)
    requires a <= b
    ensures |a| <= |b|
  {
    assert b == a + (b - a);
  }
}
