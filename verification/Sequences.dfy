/** Concatenation of parts, shared by the stream, chunk and frame models. */
module Sequences {

  function Concat<T>(parts: seq<seq<T>>): seq<T> {
    if parts == [] then [] else Concat(parts[..|parts| - 1]) + parts[|parts| - 1]
  }

  /** A prefix of the parts makes a prefix of the whole, ending where the next part starts. */
  lemma {:induction false} ConcatPrefix<T>(parts: seq<seq<T>>, i: nat)
    requires i <= |parts|
    ensures Concat(parts[..i]) <= Concat(parts)
    ensures i < |parts| ==> Concat(parts[..i + 1]) == Concat(parts[..i]) + parts[i]
    decreases |parts|
  {
    var n := |parts| - 1;
    if i == |parts| {
      assert parts[..i] == parts;
    } else {
      assert parts[..i + 1][..i] == parts[..i];
      if i < n {
        ConcatPrefix(parts[..n], i);
        assert parts[..n][..i] == parts[..i];
      } else {
        assert parts[..i + 1] == parts;
      }
    }
  }
}
