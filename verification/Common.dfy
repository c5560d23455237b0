/**
 What all modules share: text, optional values, and a marker that keeps large invariants folded.
 */
module Common {

  type Text = seq<char>

  datatype Option<+T> = None | Some(value: T)

  /** An invariant written `forall k :: Unfold(k) ==> P` is looked into only by proofs that mention
      `Unfold`; elsewhere the verifier treats it as one fact. */
  predicate Unfold(k: int) { true }
}
