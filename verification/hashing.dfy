/** SHA-256 hex digests, modelled as a function parameter. The only property
    the rest of the model relies on is injectivity (no collisions). */
module Hashing {

  /** A digest function from strings to hex-digest strings. */
  type Hash = string -> string

  ghost predicate Injective(h: Hash) {
    forall a: string, b: string :: h(a) == h(b) ==> a == b
  }
}
