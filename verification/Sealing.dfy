/** Facts that most proofs pass on without looking inside. Such a fact is written
        forall k {:trigger Opened(k)} :: Opened(k) && k == KIND ==> fact
    and only a proof that mentions Opened(KIND) sees what it says. This keeps the
    proofs about compositions and about objects small. */
module Sealing {
  ghost predicate Opened(k: nat) {
    true
  }
}
