/** A predicate stated `forall key {:trigger Unsealed(key)} :: Unsealed(key) ==> ...` means what
    stands behind the key, but a proof sees that only once some Unsealed(k) is mentioned. */
module Seals {
  predicate Unsealed(key: nat) {
    true
  }

  // Further keys, so that a proof about whole runs need not see inside a step, nor a proof about a
  // step inside one layer's part of it.

  predicate PartUnsealed(key: nat) {
    true
  }

  predicate StepUnsealed(key: nat) {
    true
  }

  predicate RunUnsealed(key: nat) {
    true
  }
}
