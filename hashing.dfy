/**
  The hash partitioner of gcache.go: the FNV-1a style key hash (`hashKey`)
  and the shard selection by `hash % numShards` (`getShard`).

  A Go string is indexed by bytes, so a key is modelled as its byte sequence;
  Go's `uint32` arithmetic wraps around modulo 2^32, which is exactly what
  `bv32` does.
 */
module Hashing {

  type Key = seq<bv8>

  /** Go's `uint32`, the type of a key hash and of the shard tables' keys. */
  newtype uint32 = x: int | 0 <= x < 0x1_0000_0000

  /** The FNV 32-bit prime used as the multiplier. */
  const FnvPrime: bv32 := 16777619

  /** Number of shards of a cache (`numShards`). */
  const NumShards: nat := 8

  /** One round of the hash (`h ^= uint32(b); h *= 16777619`): xor in the
      byte, then multiply by the prime modulo 2^32. */
  function Step(h: bv32, b: bv8): bv32
  {
    (h ^ (b as bv32)) * FnvPrime
  }

  /** The hash of a key, defined on its last byte: the value the loop of
      `hashKey` holds after it has consumed the whole key, starting from 0. */
  function HashOf(key: Key): bv32
    decreases |key|
  {
    if key == [] then 0 else Step(HashOf(key[..|key| - 1]), key[|key| - 1])
  }

  /** Reference definition: the left fold of `Step` over the bytes, from the
      front, starting from the accumulator `h`. */
  function FoldFrom(h: bv32, key: Key): bv32
    decreases |key|
  {
    if key == [] then h else FoldFrom(Step(h, key[0]), key[1..])
  }

  /** Folding over a concatenation folds over the first part, then the second. */
  lemma {:induction false} FoldFromAppend(h: bv32, a: Key, b: Key)
    ensures FoldFrom(h, a + b) == FoldFrom(FoldFrom(h, a), b)
    decreases |a|
  {
    if a == [] {
      assert a + b == b;
    } else {
      assert (a + b)[0] == a[0];
      assert (a + b)[1..] == a[1..] + b;
      FoldFromAppend(Step(h, a[0]), a[1..], b);
    }
  }

  /** The hash is the left fold `h := (h ^ byte) * 16777619` from 0. */
  lemma {:induction false} HashOfIsLeftFold(key: Key)
    ensures HashOf(key) == FoldFrom(0, key)
    decreases |key|
  {
    if key != [] {
      var init, last := key[..|key| - 1], key[|key| - 1];
      assert key == init + [last];
      HashOfIsLeftFold(init);
      FoldFromAppend(0, init, [last]);
      assert FoldFrom(FoldFrom(0, init), [last]) == FoldFrom(Step(FoldFrom(0, init), last), []);
    }
  }

  /** The hash can be computed incrementally: hashing `a + b` continues the
      fold from the hash of `a`. */
  lemma HashOfAppend(a: Key, b: Key)
    ensures HashOf(a + b) == FoldFrom(HashOf(a), b)
  {
    HashOfIsLeftFold(a + b);
    HashOfIsLeftFold(a);
    FoldFromAppend(0, a, b);
  }

  /** The empty key hashes to 0, and a one-byte key to its byte times the
      prime: the fold starts from 0, not from the FNV offset basis. */
  lemma HashOfShortKeys(b: bv8)
    ensures HashOf([]) == 0
    ensures HashOf([b]) == (b as bv32) * FnvPrime
  {
    assert [b][..0] == [];
  }

  /** The `bv32` fold's result as Go's `uint32`. */
  function ToUint32(h: bv32): uint32
  {
    h as uint32
  }

  /** The hash of a key as the unsigned 32-bit number Go's `hashKey` returns. */
  function Hash(key: Key): uint32
  {
    ToUint32(HashOf(key))
  }

  /** `hashKey`: the loop that accumulates the hash byte by byte. */
  method HashKey(key: Key) returns (r: uint32)
    ensures r == Hash(key)
  {
    var h: bv32 := 0;
    var i := 0;
    while i < |key|
      invariant 0 <= i <= |key|
      invariant h == HashOf(key[..i])
    {
      assert key[..i + 1][..i] == key[..i];
      h := Step(h, key[i]);
      i := i + 1;
    }
    assert key[..i] == key;
    r := ToUint32(h);
  }

  /** Leading zero bytes do not change the hash, because the fold starts
      from 0 and `(0 ^ 0) * prime` is 0. */
  lemma LeadingZeroByteIgnored(key: Key)
    ensures Hash([0] + key) == Hash(key)
  {
    HashOfIsLeftFold([0] + key);
    HashOfIsLeftFold(key);
    assert ([0] + key)[0] == 0 && ([0] + key)[1..] == key;
    assert Step(0, 0) == 0;
  }

  /** `getShard`: the shard a hash routes to, `hash % numShards` (the hash is
      unsigned, so its value modulo the shard count); it is always a valid
      shard index. */
  function ShardIndex(h: uint32): (i: nat)
    ensures i < NumShards
  {
    (h % (NumShards as uint32)) as nat
  }
}
