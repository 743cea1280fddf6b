/** The immutable cache entry `TtlMemCacheEntry` (lib/entry.js). */
module CacheEntry {
  import opened Utils

  /** A primitive JavaScript value used as a `Map` key. */
  datatype Key = Str(s: string) | Num(n: int) | Bool(b: bool)

  /** The keys JavaScript treats as false in a boolean context. */
  predicate Falsy(k: Key)
  {
    k == Str("") || k == Num(0) || k == Bool(false)
  }

  /**
   * A plain object as the entry's constructor, its validators and the cache read it:
   * the five entry properties plus the `type` tag that `toJSON` adds. A property the
   * object lacks is `Undefined`.
   */
  datatype Record<V> = Record(
    key: Nullable<Key>,
    value: Nullable<V>,
    ttl: Nullable<Millis>,
    origin: Nullable<string>,
    expires: Nullable<Millis>,
    tag: Nullable<string>)

  /** The discriminator `toJSON` adds to every serialised entry. */
  const TypeTag: string := "TtlMemCacheEntry"

  /** `{}`: the object the constructor and the validators fall back to when given nothing. */
  function NoFields<V>(): Record<V>
  {
    Record(Undefined, Undefined, Undefined, Undefined, Undefined, Undefined)
  }

  /**
   * A constructed entry. There is no update operation: every setter of the source
   * throws, and a datatype value has no assignable field.
   */
  datatype Entry<V> = Entry(
    key: Nullable<Key>,
    value: Nullable<V>,
    ttl: Nullable<Millis>,
    origin: Nullable<string>,
    expires: Millis)
  {
    /** `entry.expired(now)`: the expiry test applied to this entry's timestamp. */
    predicate Expired(now: int)
      ensures Expired(now) <==> expires.Finite? && expires.ms < now
    {
      Utils.Expired(Defined(expires), now)
    }

    /** The object a reader sees through the five accessors (no `type` property). */
    function Fields(): (r: Record<V>)
      ensures r.tag == Undefined && r.expires == Defined(expires)
      ensures r.key == key && r.value == value && r.ttl == ttl && r.origin == origin
    {
      Record(key, value, ttl, origin, Defined(expires), Undefined)
    }

    /** `toJSON()`: the five fields plus `type: 'TtlMemCacheEntry'`. */
    function ToJSON(): (r: Record<V>)
      ensures r.tag == Defined(TypeTag) && r.expires == Defined(expires)
      ensures r.key == key && r.value == value && r.ttl == ttl && r.origin == origin
    {
      Fields().(tag := Defined(TypeTag))
    }
  }

  /**
   * An entry that came out of the constructor: the defaults leave only `key` possibly
   * `undefined`.
   */
  predicate Constructed<V>(e: Entry<V>)
  {
    e.value != Undefined && e.ttl != Undefined && e.origin != Undefined
  }

  /**
   * `new TtlMemCacheEntry(opts)` at clock reading `now`. Missing `value` and `origin`
   * default to `null` and a missing `ttl` to -1 (defaults replace `undefined` only);
   * a truthy `expires` is kept verbatim, anything else (missing, `null` or 0) is
   * replaced by `calculateExpire(ttl)`.
   */
  function NewEntry<V>(opts: Record<V>, now: int): (e: Entry<V>)
    ensures Constructed(e)
    ensures e.key == opts.key
    ensures e.value == if opts.value == Undefined then Null else opts.value
    ensures e.ttl == if opts.ttl == Undefined then Defined(Finite(-1)) else opts.ttl
    ensures e.origin == if opts.origin == Undefined then Null else opts.origin
    ensures Truthy(opts.expires) ==> e.expires == opts.expires.value
    ensures !Truthy(opts.expires) ==> e.expires == CalculateExpire(e.ttl, now)
  {
    var value := if opts.value.Undefined? then Null else opts.value;
    var ttl := if opts.ttl.Undefined? then Defined(Finite(-1)) else opts.ttl;
    var origin := if opts.origin.Undefined? then Null else opts.origin;
    var expires := if Truthy(opts.expires) then opts.expires.value else CalculateExpire(ttl, now);
    Entry(opts.key, value, ttl, origin, expires)
  }

  /** `assertLoose(obj)`: the object carries a non-empty key and a non-empty value. */
  predicate AssertLoose<V>(obj: Record<V>)
    ensures AssertLoose(obj) <==> obj.key.Defined? && obj.value.Defined?
  {
    IsNotEmpty(obj.key) && IsNotEmpty(obj.value)
  }

  /** `assertStrict(obj)`: as `assertLoose`, and the ttl is non-empty too. */
  predicate AssertStrict<V>(obj: Record<V>)
    ensures AssertStrict(obj) <==> AssertLoose(obj) && obj.ttl.Defined?
  {
    IsNotEmpty(obj.key) && IsNotEmpty(obj.value) && IsNotEmpty(obj.ttl)
  }

  // ---------------------------------------------------------------------------
  // Properties of entries
  // ---------------------------------------------------------------------------

  /** `new Entry()`: key undefined, value and origin null, ttl -1, so it expires at `now - 1`. */
  lemma DefaultEntry<V>(now: int)
    ensures var e := NewEntry<V>(NoFields(), now);
      && e.key == Undefined && e.value == Null && e.origin == Null
      && e.ttl == Defined(Finite(-1)) && e.expires == Finite(now - 1)
      && e.Expired(now)
  {
  }

  /** A truthy `expires` is kept however the clock reads; a falsy one is recomputed from `now`. */
  lemma SuppliedExpiresIsKept<V>(opts: Record<V>, now1: int, now2: int)
    ensures Truthy(opts.expires) ==> NewEntry(opts, now1) == NewEntry(opts, now2)
    ensures !Truthy(opts.expires) ==>
      NewEntry(opts, now1).expires == CalculateExpire(NewEntry(opts, now1).ttl, now1)
    ensures opts.expires == Defined(Finite(0)) && opts.ttl == Defined(Finite(0)) ==>
      NewEntry(opts, now1).expires == Finite(now1)
  {
  }

  /** `entry.expired(now)` is `utils.expired(entry.expires, now)`; past `expires` it is expired. */
  lemma EntryExpiredDelegates<V>(e: Entry<V>, now: int)
    ensures e.Expired(now) == Utils.Expired(Defined(e.expires), now)
    ensures e.expires.Finite? ==> (e.Expired(now) <==> e.expires.ms < now)
    ensures e.expires.Infinite? ==> !e.Expired(now)
  {
  }

  /** The validators read only key, value and ttl, and the strict one implies the loose one. */
  lemma ValidatorsAgree<V>(obj: Record<V>)
    ensures AssertLoose(obj) <==> obj.key.Defined? && obj.value.Defined?
    ensures AssertStrict(obj) <==> AssertLoose(obj) && obj.ttl.Defined?
    ensures AssertStrict(obj) ==> AssertLoose(obj)
    ensures !AssertLoose(NoFields<V>()) && !AssertStrict(NoFields<V>())
  {
  }

  /**
   * Constructing an entry from another entry's `toJSON()` record, at any later time,
   * reproduces all five fields as long as `expires` is non-zero; the `type` tag is ignored.
   */
  lemma FromJSONRoundTrip<V>(e: Entry<V>, now: int)
    requires Constructed(e) && e.expires != Finite(0)
    ensures NewEntry(e.ToJSON(), now) == e
    ensures NewEntry(e.Fields(), now) == e
  {
  }

  /** Every constructed entry survives its own `toJSON` round trip unless its expiry is 0. */
  lemma ConstructedRoundTrip<V>(opts: Record<V>, now1: int, now2: int)
    requires NewEntry(opts, now1).expires != Finite(0)
    ensures NewEntry(NewEntry(opts, now1).ToJSON(), now2) == NewEntry(opts, now1)
  {
    FromJSONRoundTrip(NewEntry(opts, now1), now2);
  }
}
