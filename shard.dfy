/**
  A `shard` of gcache.go as an object: its item table, its fixed ring buffer
  of write records and the ring cursor. Each method is proved to leave the
  shard in the state the matching function of ShardSpec computes.
 */
module Shards {
  import opened Wrappers
  import opened Hashing
  import opened ShardSpec

  class Shard<V> {
    var items: map<uint32, Item<V>>
    const ringBuf: array<RingNode>
    var ringHead: int

    /** The shard invariant: the ring keeps its length and the cursor stays
        inside it. */
    ghost predicate Valid()
      reads this
    {
      ringBuf.Length == RingSize && 0 <= ringHead < RingSize
    }

    /** The shard's fields as a value. */
    ghost function View(): (s: State<V>)
      reads this, ringBuf
      ensures Valid() ==> s.Valid()
    {
      State(items, ringBuf[..], ringHead)
    }

    /** The allocation of one shard in `New`: an empty table and a ring of
        `RingSize` zero records. */
    constructor ()
      ensures Valid() && fresh(ringBuf)
      ensures View() == Empty()
    {
      items := map[];
      ringBuf := new RingNode[RingSize](_ => RingNode(0, 0));
      ringHead := 0;
      new;
      assert ringBuf[..] == Empty<V>().ring;
    }

    /** The locked part of `Set`: store the item, record the write at the
        cursor, advance the cursor. */
    method Put(h: uint32, value: V, exp: int)
      requires Valid()
      modifies this, ringBuf
      ensures Valid()
      ensures View() == ShardSpec.Put(old(View()), h, value, exp)
    {
      items := items[h := Item(value, exp)];
      ringBuf[ringHead] := RingNode(h, exp);
      ringHead := (ringHead + 1) % RingSize;
    }

    /** `Get` on this shard: look the hash up and delete the entry when its
        expiry has passed. */
    method Get(h: uint32, now: int) returns (value: Option<V>)
      requires Valid()
      modifies this`items
      ensures Valid()
      ensures Lookup(value, View()) == ShardSpec.Get(old(View()), h, now)
    {
      if h !in items {
        return None;
      }
      var item := items[h];
      if item.expires > 0 && now > item.expires {
        Delete(h);
        return None;
      }
      return Some(item.value);
    }

    /** `Delete` on this shard: remove the entry for the hash, if any. */
    method Delete(h: uint32)
      requires Valid()
      modifies this`items
      ensures Valid()
      ensures View() == ShardSpec.Delete(old(View()), h)
    {
      items := items - {h};
    }

    /** One `cleanup` tick on this shard: visit every ring slot; for an
        expired record delete the item for its hash and clear its expiry. */
    method Sweep(now: int)
      requires Valid()
      modifies this`items, ringBuf
      ensures Valid()
      ensures View() == ShardSpec.Sweep(old(View()), now)
    {
      ghost var ring0 := ringBuf[..];
      var i := 0;
      while i < RingSize
        invariant 0 <= i <= RingSize
        invariant forall j :: 0 <= j < i ==> ringBuf[j] == Cleared(ring0[j], now)
        invariant forall j :: i <= j < RingSize ==> ringBuf[j] == ring0[j]
        invariant items == old(items) - ExpiredKeys(ring0[..i], now)
      {
        var node := ringBuf[i];
        ExpiredKeysSnoc(ring0, i, now);
        if node.expires > 0 && now > node.expires {
          items := items - {node.key};
          ringBuf[i] := node.(expires := 0);
        }
        i := i + 1;
      }
      assert ring0[..RingSize] == ring0;
      assert ringBuf[..] == SweptRing(ring0, now);
    }
  }

  /** The expired hashes of one more record of the ring. */
  lemma ExpiredKeysSnoc(ring: seq<RingNode>, i: nat, now: int)
    requires i < |ring|
    ensures ExpiredKeys(ring[..i + 1], now)
            == ExpiredKeys(ring[..i], now) + (if Expired(ring[i].expires, now) then {ring[i].key} else {})
  {
    var a, b := ExpiredKeys(ring[..i + 1], now), ExpiredKeys(ring[..i], now);
    assert ring[..i + 1][i] == ring[i];
    forall k | k in b ensures k in a {
      var j :| 0 <= j < i && Expired(ring[..i][j].expires, now) && ring[..i][j].key == k;
      assert ring[..i + 1][j] == ring[..i][j];
    }
  }
}
