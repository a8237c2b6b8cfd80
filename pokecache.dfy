/**
 The TTL cache of package pokecache: a map from string keys to byte values, each
 stamped with the instant it was stored. `Add` inserts or overwrites, `Get` is a
 plain lookup with no expiry check, and one sweep (`DeleteExpired`) removes every
 entry strictly older than the given duration. Instants and durations are integer
 clock ticks supplied by the caller.
 */
module PokeCache {

  newtype byte = b: int | 0 <= b < 256

  type Bytes = seq<byte>

  /** One cached value and the instant it was stored. */
  datatype Entry = Entry(createdAt: int, val: Bytes)

  type Entries = map<string, Entry>

  /** The sweep's deletion test: at `now` the entry is strictly older than `ttl`. */
  predicate Expired(e: Entry, now: int, ttl: int)
  {
    now - e.createdAt > ttl
  }

  /** The entries a sweep at `now` leaves once it has visited every key outside
      `pending`: visited keys survive only if unexpired, pending keys are untouched. */
  function SweptExcept(m: Entries, now: int, ttl: int, pending: set<string>): Entries
  {
    map k | k in m && (k in pending || !Expired(m[k], now, ttl)) :: m[k]
  }

  /** The entries left by one full sweep at `now`. */
  function Swept(m: Entries, now: int, ttl: int): Entries
  {
    SweptExcept(m, now, ttl, {})
  }

  /** The keep/delete rule of one sweep: an entry survives exactly when its age is
      at most `ttl` (an entry aged exactly `ttl` survives), and survivors keep their
      value and timestamp. */
  lemma SweepRule(m: Entries, now: int, ttl: int, k: string)
    ensures k in Swept(m, now, ttl) <==> k in m && now - m[k].createdAt <= ttl
    ensures k in Swept(m, now, ttl) ==> Swept(m, now, ttl)[k] == m[k]
  {
  }

  /** A sweep only removes: no key is added and no surviving entry changes. */
  lemma SweepOnlyRemoves(m: Entries, now: int, ttl: int)
    ensures Swept(m, now, ttl).Keys <= m.Keys
    ensures forall k :: k in Swept(m, now, ttl) ==> Swept(m, now, ttl)[k] == m[k]
  {
  }

  /** A second sweep at the same instant changes nothing. */
  lemma SweepIdempotent(m: Entries, now: int, ttl: int)
    ensures Swept(Swept(m, now, ttl), now, ttl) == Swept(m, now, ttl)
  {
  }

  /** Sweeps at increasing instants compose: the later one alone has the same
      effect as both, so what a sequence of ticks leaves depends only on the last. */
  lemma SweepsCompose(m: Entries, earlier: int, later: int, ttl: int)
    requires earlier <= later
    ensures Swept(Swept(m, earlier, ttl), later, ttl) == Swept(m, later, ttl)
  {
  }

  /** When every entry was stored at `t0` and more than `ttl` has passed, a sweep
      leaves nothing. */
  lemma SweepClearsOldBatch(m: Entries, t0: int, now: int, ttl: int)
    requires forall k :: k in m ==> m[k].createdAt == t0
    requires now - t0 > ttl
    ensures Swept(m, now, ttl) == map[]
  {
  }

  /** The entries after storing a batch of (key, value) pairs one after the other,
      all at instant `t`. */
  function AddedAll(m: Entries, batch: seq<(string, Bytes)>, t: int): Entries
    decreases |batch|
  {
    if batch == [] then m
    else AddedAll(m[batch[0].0 := Entry(t, batch[0].1)], batch[1..], t)
  }

  predicate DistinctKeys(batch: seq<(string, Bytes)>)
  {
    forall i, j :: 0 <= i < j < |batch| ==> batch[i].0 != batch[j].0
  }

  /** Storing a batch of distinct keys loses no update: each key maps to its own
      value, stamped `t`. */
  lemma {:induction false} AddedAllRetrievable(m: Entries, batch: seq<(string, Bytes)>, t: int)
    requires DistinctKeys(batch)
    ensures forall i :: 0 <= i < |batch| ==>
      batch[i].0 in AddedAll(m, batch, t) && AddedAll(m, batch, t)[batch[i].0] == Entry(t, batch[i].1)
    decreases |batch|
  {
    if batch != [] {
      var m' := m[batch[0].0 := Entry(t, batch[0].1)];
      AddedAllRetrievable(m', batch[1..], t);
      AddedAllKeepsOthers(m', batch[1..], t);
      forall i | 0 <= i < |batch|
        ensures batch[i].0 in AddedAll(m, batch, t) && AddedAll(m, batch, t)[batch[i].0] == Entry(t, batch[i].1)
      {
        if i > 0 {
          assert batch[1..][i - 1] == batch[i];
        } else {
          forall j | 0 <= j < |batch[1..]| ensures batch[1..][j].0 != batch[0].0 {
            assert batch[1..][j] == batch[j + 1];
          }
        }
      }
    }
  }

  /** Storing a batch never touches a key outside it. */
  lemma {:induction false} AddedAllKeepsOthers(m: Entries, batch: seq<(string, Bytes)>, t: int)
    ensures forall k :: k in m && (forall i :: 0 <= i < |batch| ==> batch[i].0 != k) ==>
      k in AddedAll(m, batch, t) && AddedAll(m, batch, t)[k] == m[k]
    decreases |batch|
  {
    if batch != [] {
      var m' := m[batch[0].0 := Entry(t, batch[0].1)];
      AddedAllKeepsOthers(m', batch[1..], t);
      forall k | k in m && (forall i :: 0 <= i < |batch| ==> batch[i].0 != k)
        ensures k in AddedAll(m, batch, t) && AddedAll(m, batch, t)[k] == m[k]
      {
        assert batch[0].0 != k;
        forall i | 0 <= i < |batch[1..]| ensures batch[1..][i].0 != k {
          assert batch[1..][i] == batch[i + 1];
        }
      }
    }
  }

  /** Storing a batch adds exactly the batch's keys. */
  lemma {:induction false} AddedAllKeys(m: Entries, batch: seq<(string, Bytes)>, t: int)
    ensures forall k :: k in AddedAll(m, batch, t) <==> k in m || exists i :: 0 <= i < |batch| && batch[i].0 == k
    decreases |batch|
  {
    if batch != [] {
      var m' := m[batch[0].0 := Entry(t, batch[0].1)];
      AddedAllKeys(m', batch[1..], t);
      forall k ensures k in AddedAll(m, batch, t) <==> k in m || exists i :: 0 <= i < |batch| && batch[i].0 == k {
        if exists i :: 0 <= i < |batch| && batch[i].0 == k {
          var i :| 0 <= i < |batch| && batch[i].0 == k;
          if i > 0 { assert batch[1..][i - 1].0 == k; }
        }
        if exists i :: 0 <= i < |batch[1..]| && batch[1..][i].0 == k {
          var i :| 0 <= i < |batch[1..]| && batch[1..][i].0 == k;
          assert batch[i + 1].0 == k;
        }
      }
    }
  }

  /** Storing a batch at `t` into entries all stamped `t` leaves every entry
      stamped `t`, whether or not the batch repeats a key. */
  lemma {:induction false} AddedAllStamps(m: Entries, batch: seq<(string, Bytes)>, t: int)
    requires forall k :: k in m ==> m[k].createdAt == t
    ensures forall k :: k in AddedAll(m, batch, t) ==> AddedAll(m, batch, t)[k].createdAt == t
    decreases |batch|
  {
    if batch != [] {
      AddedAllStamps(m[batch[0].0 := Entry(t, batch[0].1)], batch[1..], t);
    }
  }

  /** A batch of keys stored at `t0` into an empty cache is entirely present,
      and entirely gone after a sweep more than `ttl` later. */
  lemma BatchExpires(batch: seq<(string, Bytes)>, t0: int, now: int, ttl: int)
    requires now - t0 > ttl
    ensures forall i :: 0 <= i < |batch| ==> batch[i].0 in AddedAll(map[], batch, t0)
    ensures Swept(AddedAll(map[], batch, t0), now, ttl) == map[]
  {
    AddedAllKeys(map[], batch, t0);
    AddedAllStamps(map[], batch, t0);
    SweepClearsOldBatch(AddedAll(map[], batch, t0), t0, now, ttl);
  }

  /** The cache: the entry map is updated in place by `Add` and `DeleteExpired`. */
  class Cache {
    var entries: Entries

    /** A new cache holds no entries. */
    constructor ()
      ensures entries == map[]
    {
      entries := map[];
    }

    /** Inserts or overwrites the entry for `key`, stamped `now`; every other key
        keeps its entry. */
    method Add(key: string, val: Bytes, now: int)
      modifies this
      ensures entries == old(entries)[key := Entry(now, val)]
      ensures forall k :: k != key ==> (k in entries <==> k in old(entries))
      ensures forall k :: k != key && k in entries ==> entries[k] == old(entries)[k]
    {
      entries := entries[key := Entry(now, val)];
    }

    /** Looks `key` up with no expiry check; a miss yields the empty (nil) value. */
    method Get(key: string) returns (val: Bytes, found: bool)
      ensures found <==> key in entries
      ensures found ==> val == entries[key].val
      ensures !found ==> val == []
    {
      if key in entries {
        val, found := entries[key].val, true;
      } else {
        val, found := [], false;
      }
    }

    /** One sweep at `now`: deletes, one key at a time, every entry strictly older
        than `ttl`. */
    method DeleteExpired(now: int, ttl: int)
      modifies this
      ensures entries == Swept(old(entries), now, ttl)
    {
      var pending := entries.Keys;
      while pending != {}
        invariant pending <= old(entries).Keys
        invariant entries == SweptExcept(old(entries), now, ttl, pending)
        decreases pending
      {
        var key :| key in pending;
        if Expired(entries[key], now, ttl) {
          entries := entries - {key};
        }
        pending := pending - {key};
      }
    }
  }

  /** Add then Get returns what was added; a second Add to the same key wins and
      restamps the entry; a key never added misses. */
  method RoundTripAndOverwrite(key: string, other: string, v1: Bytes, v2: Bytes, t1: int, t2: int)
    requires other != key
  {
    var c := new Cache();
    var val, found := c.Get(key);
    assert !found && val == [];
    c.Add(key, v1, t1);
    val, found := c.Get(key);
    assert found && val == v1;
    c.Add(key, v2, t2);
    val, found := c.Get(key);
    assert found && val == v2 && c.entries[key].createdAt == t2;
    val, found := c.Get(other);
    assert !found;
  }

  /** With a TTL of 5 ticks, an entry stored at 0 is still returned at 3 (a read
      never expires anything, even past the TTL) and is gone after a sweep at 12. */
  method ReapScenario(v: Bytes)
  {
    var c := new Cache();
    c.Add("a", v, 0);
    var val, found := c.Get("a");
    assert found && val == v;
    c.DeleteExpired(3, 5);
    val, found := c.Get("a");
    assert found && val == v;
    c.DeleteExpired(5, 5);
    val, found := c.Get("a");
    assert found;
    c.DeleteExpired(12, 5);
    val, found := c.Get("a");
    assert !found;
  }

  /** Three keys added one after another at `t0` are exactly the batch of
      `AddedAll`, all retrievable, and all gone after a sweep past the TTL. */
  method MultipleEntriesScenario(v1: Bytes, v2: Bytes, v3: Bytes, t0: int, ttl: int)
  {
    var c := new Cache();
    c.Add("key1", v1, t0);
    c.Add("key2", v2, t0);
    c.Add("key3", v3, t0);
    var batch := [("key1", v1), ("key2", v2), ("key3", v3)];
    var m1 := map["key1" := Entry(t0, v1)];
    var m2 := m1["key2" := Entry(t0, v2)];
    var m3 := m2["key3" := Entry(t0, v3)];
    assert batch[1..] == [("key2", v2), ("key3", v3)] && batch[1..][1..] == [("key3", v3)];
    assert AddedAll(m3, batch[1..][1..][1..], t0) == m3;
    assert AddedAll(m2, batch[1..][1..], t0) == m3;
    assert AddedAll(m1, batch[1..], t0) == m3;
    assert c.entries == AddedAll(map[], batch, t0);
    BatchExpires(batch, t0, t0 + ttl + 1, ttl);
    var val, found := c.Get("key2");
    assert found && val == v2;
    c.DeleteExpired(t0 + ttl + 1, ttl);
    assert c.entries == map[];
    val, found := c.Get("key1");
    assert !found;
  }
}
