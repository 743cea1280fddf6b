/**
 * The `TtlMemCache` class (lib/cache.js): a `Map` of entries updated in place, the
 * options fixed at construction, and the events it emits. Each method is proved to
 * perform the transition module CacheSpec gives for it, and to keep the cache well formed.
 */
module Cache {
  import opened Utils
  import opened CacheEntry
  import opened CacheSpec

  class TtlMemCache<V> {
    /** The lifetime given to entries set without one. */
    const ttl: Nullable<Millis>
    /** Whether an expired value is still handed out once, as it is deleted. */
    const stale: bool
    /** Whether `set` events carry `{oldVal, newVal}`. */
    const changefeed: bool
    /** The origin stamped on entries this cache creates. */
    const id: string

    /** The `Map`'s keys in iteration order. */
    var order: seq<Key>
    /** The `Map` itself. */
    var store: map<Key, Entry<V>>
    /** Every event emitted so far, oldest first: a record for reasoning, never read by the cache. */
    ghost var events: seq<Event<V>>

    /** The state this cache is in, as CacheSpec describes it. */
    ghost function St(): State<V>
      reads this
    {
      State(order, store, events)
    }

    /** The options, as CacheSpec describes them. */
    function Cfg(): Config
    {
      Config(ttl, stale, changefeed, id)
    }

    ghost predicate Valid()
      reads this
    {
      WellFormed(St())
    }

    /**
     * `new TtlMemCache({ ttl, stale, changefeed, id })`. An omitted ttl is five
     * minutes; a falsy id is replaced by `randomId`, which stands for the base64 of
     * twelve random bytes.
     */
    constructor (ttlOption: Nullable<Millis>, staleOption: bool, changefeedOption: bool, idOption: Nullable<string>, randomId: string)
      ensures Valid() && St() == Empty()
      ensures ttl == (if ttlOption.Undefined? then Defined(Finite(DefaultTtl)) else ttlOption)
      ensures stale == staleOption && changefeed == changefeedOption
      ensures id == (if idOption.Defined? && idOption.value != "" then idOption.value else randomId)
    {
      ttl := if ttlOption.Undefined? then Defined(Finite(DefaultTtl)) else ttlOption;
      stale := staleOption;
      changefeed := changefeedOption;
      id := if idOption.Defined? && idOption.value != "" then idOption.value else randomId;
      order := [];
      store := map[];
      events := [];
    }

    /** `Map.prototype.set`. */
    method MapSet(k: Key, e: Entry<V>)
      modifies this
      ensures St() == Put(old(St()), k, e)
    {
      if k !in store {
        order := order + [k];
      }
      store := store[k := e];
    }

    /** `[_del]({ key })` and `del(key)`. */
    method Del(key: Nullable<Key>, now: int) returns (success: bool)
      requires Valid()
      modifies this
      ensures Valid()
      ensures (St(), success) == CacheSpec.Del(old(St()), key, now)
    {
      assert WellFormed(CacheSpec.Del(St(), key, now).0);
      if key.Defined? && key.value in store {
        var k := key.value;
        var item := store[k];
        order := Without(order, k);
        store := store - {k};
        events := events + [Broadcast(KeyOnly(k, now)), Dispose(k, item.value)];
        success := true;
      } else {
        success := false;
      }
    }

    /** `get(key)`. */
    method Get(key: Nullable<Key>, now: int) returns (v: Nullable<V>)
      requires Valid()
      modifies this
      ensures Valid()
      ensures (St(), v) == CacheSpec.Get(old(St()), key, now, stale)
    {
      if key.Defined? && key.value in store {
        var item := store[key.value];
        var expired := item.Expired(now);
        if expired {
          var _ := Del(key, now);
        }
        if expired && stale {
          return item.value;
        }
        if expired {
          return Null;
        }
        return item.value;
      }
      return Null;
    }

    /** `[_set]({ key, value, ttl = this.ttl, origin = this.id, expires })`. */
    method SetRecord(obj: Record<V>, now: int) returns (out: Outcome<V>)
      requires Valid()
      modifies this
      ensures Valid()
      ensures (St(), out) == CacheSpec.SetRecord(old(St()), obj, Cfg(), now)
    {
      ghost var s0 := St();
      SetRecordWellFormed(s0, obj, Cfg(), now);
      if IsEmpty(obj.key) {
        return Threw(KeyIsEmpty);
      }
      if IsEmpty(obj.value) {
        return Threw(ValueIsEmpty);
      }
      var k, v := obj.key.value, obj.value.value;
      var item := Plain(v);
      if changefeed {
        var oldVal := Get(obj.key, now);
        item := Change(oldVal, v);
      }
      var entryTtl := if obj.ttl.Undefined? then ttl else obj.ttl;
      var origin := if obj.origin.Undefined? then Defined(id) else obj.origin;
      var entry := NewEntry(Record(obj.key, obj.value, entryTtl, origin, obj.expires, Undefined), now);
      MapSet(k, entry);
      events := events + [Broadcast(entry), SetEvent(k, item)];
      return Returned(v);
    }

    /** `set(key, value, ttl)`. */
    method Set(key: Nullable<Key>, value: Nullable<V>, entryTtl: Nullable<Millis>, now: int) returns (out: Outcome<V>)
      requires Valid()
      modifies this
      ensures Valid()
      ensures (St(), out) == CacheSpec.Set(old(St()), key, value, entryTtl, Cfg(), now)
    {
      out := SetRecord(Record(key, value, entryTtl, Undefined, Undefined, Undefined), now);
    }

    /** `_write(chunk)`, once the chunk has been decoded or has failed to decode. */
    method Write(chunk: Chunk<V>, now: int)
      requires Valid()
      modifies this
      ensures Valid()
      ensures St() == CacheSpec.Write(old(St()), chunk, Cfg(), now)
    {
      if chunk.DecodeError? {
        events := events + [ErrorEvent(MalformedChunk)];
        return;
      }
      var obj := chunk.obj;
      if AssertLoose(obj) {
        var k := obj.key.value;
        if k in store && obj.key == store[k].key && obj.expires == Defined(store[k].expires) {
          return;
        }
        var _ := SetRecord(obj, now);
        return;
      }
      if IsNotEmpty(obj.key) && IsEmpty(obj.value) {
        var _ := Del(obj.key, now);
        return;
      }
      events := events + [ErrorEvent(MissingKeyOrValue)];
    }

    /** `prune()`: one pass over the `Map`, deleting each entry expired at `now`. */
    method Prune(now: int)
      requires Valid()
      modifies this
      ensures Valid()
      ensures St() == CacheSpec.Prune(old(St()), now)
    {
      ghost var s0 := St();
      var keys := order;
      var i := 0;
      while i < |keys|
        invariant 0 <= i <= |keys| && keys == s0.order
        invariant St() == Sweep(s0, keys[..i], now)
      {
        var k := keys[i];
        SweepKeepsUnvisited(s0, i, now);
        if k in store && store[k].Expired(now) {
          var _ := Del(Defined(k), now);
        }
        i := i + 1;
      }
      assert Valid() && St() == CacheSpec.Prune(s0, now) by {
        assert keys[..i] == keys;
        SweepAll(s0, now);
      }
    }

    /**
     * `entries(mutator)`: the same pass as `prune`, collecting each live value, and each
     * expired one as well when `stale`, through the mutator when one is given.
     */
    method Entries(now: int, mutator: Option<V -> V>) returns (arr: seq<V>)
      requires Valid()
      modifies this
      ensures Valid()
      ensures (St(), arr) == CacheSpec.Entries(old(St()), now, stale, mutator)
    {
      ghost var s0 := St();
      var keys := order;
      arr := [];
      var i := 0;
      while i < |keys|
        invariant 0 <= i <= |keys| && keys == s0.order
        invariant St() == Sweep(s0, keys[..i], now)
        invariant arr == Collect(keys[..i], s0.store, now, stale, mutator)
      {
        var k := keys[i];
        EntriesStep(s0, i, now, stale, mutator);
        var pushed := VisitForEntries(k, now, mutator);
        arr := arr + pushed;
        i := i + 1;
      }
      assert Valid() && (St(), arr) == CacheSpec.Entries(s0, now, stale, mutator) by {
        assert keys[..i] == keys;
        SweepAll(s0, now);
        EntriesIsSweep(s0, now, stale, mutator);
      }
    }

    /**
     * The callback `entries` runs for one key: an expired entry is deleted, and the
     * value it yields, if any, passed through the mutator.
     */
    method VisitForEntries(k: Key, now: int, mutator: Option<V -> V>) returns (pushed: seq<V>)
      requires Valid() && k in store
      modifies this
      ensures Valid()
      ensures St() == SweepOne(old(St()), k, now)
      ensures var item := old(store[k]);
        pushed == if stale || !item.Expired(now) then [Apply(mutator, item.value.value)] else []
    {
      var item := store[k];
      pushed := [];
      if item.Expired(now) {
        if stale {
          pushed := [Apply(mutator, item.value.value)];
        }
        var _ := Del(Defined(k), now);
      } else {
        pushed := [Apply(mutator, item.value.value)];
      }
    }

    /** `clear()`. */
    method Clear()
      requires Valid()
      modifies this
      ensures Valid()
      ensures St() == CacheSpec.Clear(old(St()))
    {
      order := [];
      store := map[];
      events := events + [ClearEvent];
    }

    /** `dump()`: the `[key, entry]` pairs in `Map` order. */
    function Dump(): seq<(Key, Entry<V>)>
      reads this
      requires Valid()
    {
      CacheSpec.Dump(State(order, store, []))
    }

    /** `length()`: the `Map`'s size. */
    function Length(): nat
      reads this
      requires Valid()
    {
      CacheSpec.Length(State(order, store, []))
    }

    /** `load(items)`: store each strict record, then return the truthy keys stored. */
    method Load(items: Items<V>, now: int) returns (out: Outcome<seq<Key>>)
      requires Valid()
      modifies this
      ensures Valid()
      ensures (St(), out) == CacheSpec.Load(old(St()), items, now)
    {
      if items.NotArray? {
        return Threw(ItemsNotArray);
      }
      ghost var s0 := St();
      var elems := items.elems;
      var mapped: seq<Nullable<Key>> := [];
      var i := 0;
      while i < |elems|
        invariant 0 <= i <= |elems|
        invariant St() == LoadAll(s0, elems[..i], now)
        invariant mapped == Loaded(elems[..i])
        invariant Valid()
      {
        LoadAllWellFormed(s0, elems[..i + 1], now);
        var rec := elems[i].1;
        assert elems[..i + 1][..i] == elems[..i];
        assert LoadAll(s0, elems[..i + 1], now) == LoadOne(St(), rec, now);
        assert Loaded(elems[..i + 1]) == mapped + [if AssertStrict(rec) then rec.key else Undefined];
        if AssertStrict(rec) {
          var entry := NewEntry(rec, now);
          MapSet(entry.key.value, entry);
          mapped := mapped + [entry.key];
        } else {
          mapped := mapped + [Undefined];
        }
        i := i + 1;
      }
      assert elems[..i] == elems;
      var keys := FilterTruthy(mapped);
      return Returned(keys);
    }
  }

  /** `.filter(item => item)` over the keys `load` stored. */
  method FilterTruthy(ks: seq<Nullable<Key>>) returns (keys: seq<Key>)
    ensures keys == KeepTruthy(ks)
  {
    keys := [];
    var j := 0;
    while j < |ks|
      invariant 0 <= j <= |ks|
      invariant keys == KeepTruthy(ks[..j])
    {
      if ks[j].Defined? && !Falsy(ks[j].value) {
        keys := keys + [ks[j].value];
      }
      assert ks[..j + 1][..j] == ks[..j];
      j := j + 1;
    }
    assert ks[..j] == ks;
  }
}
