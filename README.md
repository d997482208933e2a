# gocache core in Dafny

A model of the sharded TTL cache in `gcache.go`, without its concurrency.

The `Cache` holds eight shards and a default TTL. A key is hashed with an
FNV-1a variant: the fold starts from 0, not from the offset basis. The hash
modulo 8 picks the shard. Each shard holds:

- an item table keyed by the 32-bit hash;
- a fixed ring of 4096 write records `(hash, expires)`;
- a cursor giving the next ring slot to overwrite.

`Set` resolves the TTL sentinels and stores the item. It also writes a ring
record at the cursor and advances the cursor around the ring. `Get` expires
entries lazily. `Delete` removes one entry. One tick of the cleanup loop
sweeps each shard's ring: every expired record deletes the item for its hash
and has its expiry cleared.

Files and modules:

- `hashing.dfy` (`Hashing`): `hashKey` as a loop, proved equal to a left fold
  over the bytes; `getShard` as `ShardIndex`.
- `shard_spec.dfy` (`ShardSpec`): a shard's state as a value (`State`), and
  `Put`, `Get`, `Delete` and `Sweep` as functions on it. The lemmas about
  these functions state what the cache guarantees.
- `shard.dfy` (`Shards`): the shard as a class. Its fields are `items`, the
  array `ringBuf` and `ringHead`. Each method is proved to leave the shard in
  the state the matching `ShardSpec` function computes.
- `cache.dfy` (`GoCache`): the facade class `Cache`, TTL resolution
  (`ExpiryFor`) and lemmas that chain `Set` and `Get`.
- `wrappers.dfy` (`Wrappers`): `Option`.

Modelling choices:

- Time is an integer parameter `now`; it replaces `time.Now().UnixNano()`.
- A key is the byte sequence of the Go string.
- Values have a type parameter `V`.
- A hash is the newtype `uint32`. The fold itself runs on `bv32`, which wraps
  around modulo 2^32 as Go's `uint32` does.
- `Get` returns `Option<V>` in place of Go's `(value, ok)` pair.

Two consequences of the code as written:

- Entries expire only when `now > expires` (gcache.go:108, 137). An entry
  whose expiry equals `now` is therefore still returned, and the sweep
  keeps it.
- The sweep deletes `items[node.key]` without comparing that entry's expiry
  with the record's (gcache.go:137-139). `SweepDropsLiveReplacement` shows
  a never-expiring entry removed by a stale record.

## Model

| member | source | states |
|---|---|---|
| Hashing.HashKey | gcache.go:60-67 | the loop returns the hash of the key: the fold of `h := (h ^ byte) * 16777619` over its bytes from 0, as a uint32 |
| Hashing.HashOfIsLeftFold | gcache.go:60-67 | the hash equals the left fold from the front of the key, starting from 0 |
| Hashing.HashOfAppend | gcache.go:60-67 | hashing `a + b` continues the fold from the hash of `a` |
| Hashing.HashOfShortKeys | gcache.go:61-65 | the empty key hashes to 0 and a one-byte key to that byte times the prime (no FNV offset basis) |
| Hashing.LeadingZeroByteIgnored | gcache.go:61-65 | a leading zero byte does not change the hash, so `k` and `[0] + k` always collide |
| Hashing.ShardIndex | gcache.go:70-72 | `hash % numShards` is always a valid shard index below 8 |
| ShardSpec.Empty | gcache.go:48-51 | a new shard has an empty table, a ring of 4096 zero records and cursor 0 |
| ShardSpec.Put | gcache.go:87-90 | the item for the hash holds the new value and expiry; the slot at the old cursor holds `(hash, expiry)`; the cursor is `(old + 1) % 4096`; every other key and slot is unchanged; the shard invariant holds |
| ShardSpec.Get | gcache.go:100-113 | found iff present and not expired (`expires > 0 && now > expires`), with the stored value; only an expired entry for the hash is removed; the ring and cursor never change |
| ShardSpec.Delete | gcache.go:121-123 | exactly the hash is removed from the table; values of other keys, the ring and the cursor are unchanged |
| ShardSpec.Sweep | gcache.go:135-141 | afterwards no slot is expired; expired slots are cleared to expiry 0 and their hash is absent from the table; other slots are unchanged; items named by no expired slot keep their value; no item is added or changed |
| ShardSpec.PutThenGetLive | gcache.go:88-113 | a stored value is found at any instant up to and including its expiry, and always when its expiry is 0 |
| ShardSpec.PutThenGetExpired | gcache.go:88-110 | after its expiry a stored value is not found, its entry is removed and the ring is left as it was |
| ShardSpec.PutOtherKey | gcache.go:88-101 | a write to one hash does not change the lookup of another |
| ShardSpec.PutShadows | gcache.go:88-101 | a second write to the same hash replaces the first: the lookup returns the second value |
| ShardSpec.DeleteAbsent | gcache.go:121-123 | deleting an absent hash leaves the shard unchanged |
| ShardSpec.DeleteIdempotent | gcache.go:121-123 | deleting twice equals deleting once, and the hash is then not found |
| ShardSpec.SweepIdempotent | gcache.go:135-141 | after a sweep no expired record is left, and a second sweep at the same instant changes nothing |
| ShardSpec.SweepDropsLiveReplacement | gcache.go:137-139 | a stale expired record deletes a later never-expiring entry for the same hash |
| ShardSpec.PutAllAdvancesCursor | gcache.go:89-90 | after `n` writes the cursor has moved `n` slots around the ring |
| ShardSpec.PutAllRecordsRecentWrites | gcache.go:89-90 | each of the last 4096 writes sits in the ring slot the cursor pointed to when it was made |
| ShardSpec.RingHoldsOnlyRecentWrites | gcache.go:89-90 | after at least 4096 writes every slot holds the record of one of the last 4096 writes |
| ShardSpec.SweepMissesOverwrittenWrites | gcache.go:135-141 | an entry whose hash is not among the last 4096 writes survives the sweep unchanged, even when expired |
| Shards.Shard.constructor | gcache.go:48-51 | the shard starts in the `Empty` state with a fresh ring array |
| Shards.Shard.Put | gcache.go:87-90 | the new state is `ShardSpec.Put` of the old one and the invariant holds |
| Shards.Shard.Get | gcache.go:100-113 | the result and new state are those of `ShardSpec.Get`; only `items` may change |
| Shards.Shard.Delete | gcache.go:121-123 | the new state is `ShardSpec.Delete` of the old one; only `items` may change |
| Shards.Shard.Sweep | gcache.go:135-141 | the loop over all 4096 slots leaves the state `ShardSpec.Sweep` computes; the cursor does not change |
| GoCache.ExpiryFor | gcache.go:76-82 | the default sentinel takes the cache TTL; a non-positive TTL stores 0 (never); a positive TTL stores `now + ttl` |
| GoCache.DefaultUsesCacheTtl | gcache.go:77-82 | `Set` with the default sentinel stores what `Set` with the cache's own TTL stores |
| GoCache.NoExpirationOverridesDefault | gcache.go:76-82 | with `NoExpiration` the stored expiry is 0 whatever the default, so the entry never expires |
| GoCache.SetThenGetNeverExpires | gcache.go:75-113 | a value set with `NoExpiration` is returned by `Get` at any instant |
| GoCache.SetThenGetWithTtl | gcache.go:80-110 | a value set with a positive TTL at a non-negative instant is found exactly up to `now + ttl`, and removed after it |
| GoCache.CollidingKeysShadow | gcache.go:84-101 | keys with equal hashes route to the same shard and share one entry: the later write is what both keys read |
| GoCache.Cache.constructor | gcache.go:45-52 | `New` allocates eight distinct, empty shards and records the TTL |
| GoCache.Cache.Set | gcache.go:75-92 | the key's shard takes `ShardSpec.Put` with the resolved expiry; every other shard is unchanged |
| GoCache.Cache.Get | gcache.go:96-114 | the key's shard performs `ShardSpec.Get`; every other shard is unchanged |
| GoCache.Cache.Delete | gcache.go:117-124 | the key's shard performs `ShardSpec.Delete`; every other shard is unchanged |
| GoCache.Cache.CleanupTick | gcache.go:132-143 | on a cache with a positive TTL, every shard is swept at the same instant |

## Left out

- The cleanup goroutine, its `time.NewTicker(c.ttl / 2)` schedule and the deferred `tick.Stop()`: background scheduling. `New` only allocates the shards; one tick is `CleanupTick(now)`, which requires a positive cache TTL because `New` starts the loop only then (gcache.go:53-55). A cache with a non-positive TTL reclaims entries only through `Get`.
- The `sync.RWMutex` locking and the race between `Get`'s read and its delete: each operation is modelled as atomic.
- The wall clock: `now` is a parameter.
- The int64 range of `UnixNano` and of `now + ttl`: time is an unbounded integer, so overflow of an expiry is not modelled.
- `Get`'s expiry path calls `c.Delete(key)`, which hashes the key again and locks the shard. The model deletes the same hash on the same shard directly, which has the same effect.
- `interface{}` values: a type parameter `V`. The `nil` returned with "not found" is `None`.
