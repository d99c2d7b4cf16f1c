/** The hash functions and field check both programs rely on, as parameters: every statement of this
    project is for all depths, all hash functions and all fields that are `Sound`. */
module Hashing {
  import opened Bytes

  datatype Params = Params(depth: nat, h1: Hash -> Hash, h2: (Hash, Hash) -> Hash, isField: Hash -> bool)

  /** The 32 bytes a rate limit is hashed as: its u64 little-endian bytes, then zeros. */
  function RateBytes(rate: u64): Hash {
    ToLE(rate, 8) + ZERO[8..]
  }

  /** Depth fits the u16 offsets; zero and every u64 are field elements; hashes of field elements are too.
      Nothing is assumed about collisions. */
  ghost predicate Sound(p: Params) {
    && 1 <= p.depth <= 15
    && p.isField(ZERO)
    && (forall rate: u64 :: p.isField(RateBytes(rate)))
    && (forall a: Hash {:trigger p.h1(a)} :: p.isField(a) ==> p.isField(p.h1(a)))
    && (forall a: Hash, b: Hash {:trigger p.h2(a, b)} :: p.isField(a) && p.isField(b) ==> p.isField(p.h2(a, b)))
  }

  /** `hash_pair`: both inputs must be field elements, otherwise the guest panics. */
  function HashPair(p: Params, left: Hash, right: Hash): Hash
    requires p.isField(left) && p.isField(right)
  {
    p.h2(left, right)
  }

  /** Root of an all-empty subtree of the given height. */
  function Empty(p: Params, height: nat): Hash {
    if height == 0 then ZERO else p.h2(Empty(p, height - 1), Empty(p, height - 1))
  }

  lemma {:induction false} EmptyIsField(p: Params, height: nat)
    requires Sound(p)
    ensures p.isField(Empty(p, height))
  {
    if height > 0 {
      EmptyIsField(p, height - 1);
    }
  }

  /** There are such parameters. */
  lemma SoundParams(depth: nat) returns (p: Params)
    requires 1 <= depth <= 15
    ensures Sound(p) && p.depth == depth
  {
    p := Params(depth, (a: Hash) => a, (a: Hash, b: Hash) => a, (a: Hash) => true);
  }
}
