/**
  The `Cache` facade of gcache.go: eight shards and a default TTL. Every
  call hashes the key once and works on the one shard the hash selects; one
  tick of the background `cleanup` sweeps every shard in turn. The locks,
  the ticker goroutine and the wall clock are not modelled: each operation
  is atomic and takes the current instant as the parameter `now`.
 */
module GoCache {
  import opened Wrappers
  import opened Hashing
  import opened ShardSpec
  import opened Shards

  /** The `ttl` argument of `Set` that stands for the cache's default TTL. */
  const DefaultExpiration: int := 0

  /** The `ttl` argument of `Set` that stands for "never expires". */
  const NoExpiration: int := -1

  /** The expiry instant `Set` stores for a per-call `ttl`, given the cache's
      default `cacheTtl`: the default sentinel defers to the cache's TTL, a
      TTL that is not positive stores 0 ("never"), and a positive TTL
      stores `now + ttl`. */
  function ExpiryFor(cacheTtl: int, ttl: int, now: int): (exp: int)
    ensures ttl == DefaultExpiration && cacheTtl <= 0 ==> exp == 0
    ensures ttl == DefaultExpiration && cacheTtl > 0 ==> exp == now + cacheTtl
    ensures ttl < 0 ==> exp == 0
    ensures ttl > 0 ==> exp == now + ttl
  {
    var t := if ttl == DefaultExpiration then cacheTtl else ttl;
    if t > 0 then now + t else 0
  }

  class Cache<V> {
    const shards: seq<Shard<V>>
    const ttl: int

    /** Eight valid shards, no two of which share an object. */
    ghost predicate Valid()
      reads this, shards
    {
      && |shards| == NumShards
      && (forall i :: 0 <= i < NumShards ==> shards[i].Valid())
      && (forall i, j :: 0 <= i < j < NumShards ==> shards[i] != shards[j] && shards[i].ringBuf != shards[j].ringBuf)
    }

    /** Every object the shards use. */
    ghost function Footprint(): set<object>
    {
      (set i | 0 <= i < |shards| :: shards[i] as object) + (set i | 0 <= i < |shards| :: shards[i].ringBuf as object)
    }

    /** `New`, without starting the cleanup goroutine: allocate the shards. */
    constructor (ttl: int)
      ensures Valid() && this.ttl == ttl
      ensures forall i :: 0 <= i < NumShards ==> fresh(shards[i]) && fresh(shards[i].ringBuf)
      ensures forall i :: 0 <= i < NumShards ==> shards[i].View() == Empty()
    {
      var s: seq<Shard<V>> := [];
      for i := 0 to NumShards
        invariant |s| == i
        invariant forall j :: 0 <= j < i ==> fresh(s[j]) && fresh(s[j].ringBuf)
        invariant forall j :: 0 <= j < i ==> s[j].Valid() && s[j].View() == Empty()
        invariant forall j, k :: 0 <= j < k < i ==> s[j] != s[k] && s[j].ringBuf != s[k].ringBuf
      {
        var sh := new Shard();
        s := s + [sh];
      }
      this.shards := s;
      this.ttl := ttl;
    }

    /** `Set`: resolve the TTL, hash the key and put the item into the shard
        the hash selects; no other shard changes. */
    method Set(key: Key, value: V, ttl: int, now: int)
      requires Valid()
      modifies shards[ShardIndex(Hash(key))], shards[ShardIndex(Hash(key))].ringBuf
      ensures Valid()
      ensures var i := ShardIndex(Hash(key));
              shards[i].View() == ShardSpec.Put(old(shards[i].View()), Hash(key), value, ExpiryFor(this.ttl, ttl, now))
      ensures forall i :: 0 <= i < NumShards && i != ShardIndex(Hash(key)) ==> shards[i].View() == old(shards[i].View())
    {
      var t := ttl;
      var exp := 0;
      if t == DefaultExpiration {
        t := this.ttl;
      }
      if t > 0 {
        exp := now + t;
      }
      var hashed := HashKey(key);
      var sh := shards[ShardIndex(hashed)];
      sh.Put(hashed, value, exp);
    }

    /** `Get`: look the key up in its shard, removing it there when it has
        expired; no other shard changes. */
    method Get(key: Key, now: int) returns (value: Option<V>)
      requires Valid()
      modifies shards[ShardIndex(Hash(key))]
      ensures Valid()
      ensures var i := ShardIndex(Hash(key));
              Lookup(value, shards[i].View()) == ShardSpec.Get(old(shards[i].View()), Hash(key), now)
      ensures forall i :: 0 <= i < NumShards && i != ShardIndex(Hash(key)) ==> shards[i].View() == old(shards[i].View())
    {
      var hashed := HashKey(key);
      var sh := shards[ShardIndex(hashed)];
      value := sh.Get(hashed, now);
    }

    /** `Delete`: remove the key's entry from its shard; nothing else
        changes. */
    method Delete(key: Key)
      requires Valid()
      modifies shards[ShardIndex(Hash(key))]
      ensures Valid()
      ensures var i := ShardIndex(Hash(key));
              shards[i].View() == ShardSpec.Delete(old(shards[i].View()), Hash(key))
      ensures forall i :: 0 <= i < NumShards && i != ShardIndex(Hash(key)) ==> shards[i].View() == old(shards[i].View())
    {
      var hashed := HashKey(key);
      var sh := shards[ShardIndex(hashed)];
      sh.Delete(hashed);
    }

    /** One tick of `cleanup`: sweep every shard in turn at the same
        instant. `New` starts the cleanup loop only for a positive TTL. */
    method CleanupTick(now: int)
      requires Valid() && ttl > 0
      modifies Footprint()
      ensures Valid()
      ensures forall i :: 0 <= i < NumShards ==> shards[i].View() == ShardSpec.Sweep(old(shards[i].View()), now)
    {
      for i := 0 to NumShards
        invariant Valid()
        invariant forall j :: 0 <= j < i ==> shards[j].View() == ShardSpec.Sweep(old(shards[j].View()), now)
        invariant forall j :: i <= j < NumShards ==> shards[j].View() == old(shards[j].View())
      {
        shards[i].Sweep(now);
      }
    }
  }

  // -----------------------------------------------------------------------
  // TTL resolution

  /** `Set` with the default sentinel stores what `Set` with the cache's
      own TTL stores, whatever that TTL is. */
  lemma DefaultUsesCacheTtl(cacheTtl: int, now: int)
    ensures ExpiryFor(cacheTtl, DefaultExpiration, now) == ExpiryFor(cacheTtl, cacheTtl, now)
  {
  }

  /** The never-expires sentinel overrides any default TTL: the stored
      expiry is 0 and the entry is never expired. */
  lemma NoExpirationOverridesDefault(cacheTtl: int, now: int, later: int)
    ensures ExpiryFor(cacheTtl, NoExpiration, now) == 0
    ensures !Expired(ExpiryFor(cacheTtl, NoExpiration, now), later)
  {
  }

  // -----------------------------------------------------------------------
  // Set followed by Get, on the shard the key routes to

  /** Round trip: a value set with `NoExpiration` is found at any later
      instant. */
  lemma SetThenGetNeverExpires<V>(s: State<V>, cacheTtl: int, key: Key, v: V, now: int, later: int)
    requires s.Valid()
    ensures var s' := ShardSpec.Put(s, Hash(key), v, ExpiryFor(cacheTtl, NoExpiration, now));
            ShardSpec.Get(s', Hash(key), later) == Lookup(Some(v), s')
  {
    PutThenGetLive(s, Hash(key), v, ExpiryFor(cacheTtl, NoExpiration, now), later);
  }

  /** A value set with a positive TTL at a non-negative instant is found up
      to and including `now + ttl` and not found, and removed, after it. */
  lemma SetThenGetWithTtl<V>(s: State<V>, cacheTtl: int, key: Key, v: V, ttl: int, now: int, later: int)
    requires s.Valid()
    requires ttl > 0 && now >= 0
    ensures var s' := ShardSpec.Put(s, Hash(key), v, ExpiryFor(cacheTtl, ttl, now));
            var r := ShardSpec.Get(s', Hash(key), later);
            (r.value == Some(v) <==> later <= now + ttl) &&
            (later > now + ttl ==> Hash(key) !in r.state.items)
  {
    var exp := ExpiryFor(cacheTtl, ttl, now);
    if later <= now + ttl {
      PutThenGetLive(s, Hash(key), v, exp, later);
    } else {
      PutThenGetExpired(s, Hash(key), v, exp, later);
    }
  }

  // -----------------------------------------------------------------------
  // Hash collisions

  /** Keys with equal hashes share one entry: after setting both, a lookup
      of the first key returns the value of the second. The keys `k` and
      `[0] + k` are such a pair. */
  lemma CollidingKeysShadow<V>(s: State<V>, k1: Key, k2: Key, v1: V, v2: V, exp1: int, now: int)
    requires s.Valid() && Hash(k1) == Hash(k2)
    ensures ShardIndex(Hash(k1)) == ShardIndex(Hash(k2))
    ensures ShardSpec.Get(ShardSpec.Put(ShardSpec.Put(s, Hash(k1), v1, exp1), Hash(k2), v2, 0), Hash(k1), now).value == Some(v2)
  {
    PutThenGetLive(ShardSpec.Put(s, Hash(k1), v1, exp1), Hash(k2), v2, 0, now);
  }
}
