// What several components share.
module Common {
  datatype Option<T> = None | Some(value: T)

  datatype Result<T> = Ok(value: T) | Err

  predicate NoRepeat<T(==)>(s: seq<T>) {
    forall i, j :: 0 <= i < j < |s| ==> s[i] != s[j]
  }

  /** A position counted on round a ring of n. */
  lemma Wraps(i: nat, j: nat, n: nat)
    requires i < n && j < n
    ensures (i + j) % n == if i + j < n then i + j else i + j - n
  {
    if i + j >= n {
      assert (i + j) % n == (i + j - n) % n;
    }
  }
}
