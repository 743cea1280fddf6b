# ttl-mem-cache in Dafny

This is a model of the core of `ttl-mem-cache`. It is an in-memory key/value cache in
which every entry carries a time to live. Caches can be piped into each other so that
every `set` and every delete is replicated.

The model has three layers, one module each:

- `Utils` (`utils.dfy`) is the expiry arithmetic of `lib/utils.js`:
  - `calculateExpire` turns a relative ttl into an absolute timestamp;
  - `expired` compares a timestamp with the clock, strictly;
  - `isEmpty` and `isNotEmpty` are the null/undefined tests.

  Timestamps and lifetimes are `Millis = Finite(ms) | Infinite`. A JavaScript
  argument that may be missing or `null` is a `Nullable<T> = Undefined | Null | Defined(value)`.
- `CacheEntry` (`entry.dfy`) is the immutable `TtlMemCacheEntry` of `lib/entry.js`. It
  is a datatype with these pieces:
  - its constructor defaults, including `expires || calculateExpire(ttl)`;
  - `expired`;
  - `toJSON` and the object its accessors show (`Fields`);
  - the validators `assertLoose` and `assertStrict`.

  An inbound object or constructor argument is a `Record`, whose fields may each be
  absent.
- The store of `lib/cache.js` is modelled twice:
  - `CacheSpec` (`cache_spec.dfy`) gives every operation as a pure transition of a
    `State`. A state has three parts:
    - the `Map`'s iteration order (`order`);
    - the `Map` itself (`store`);
    - the events emitted so far (`events`): `broadcast`, `set`, `dispose`, `clear` and `error`.

    In the class this log is a ghost field: it records what the cache emits, and no compiled code reads it.

    The lemmas about these transitions are the properties of the cache.
  - `Cache` (`cache.dfy`) is the class `TtlMemCache`, with these fields updated in place.
    Each method is proved to perform the `CacheSpec` transition and to keep the
    invariant `WellFormed`:
    - each stored key appears once in the order;
    - each entry sits under its own key and holds a value.

    `prune`, `entries` and `load` keep their loops.

The order follows the JavaScript `Map`:

- overwriting a key keeps its place;
- deleting a key and adding it again moves it to the end.

The clock is a parameter `now` of every operation that reads it. One reading serves
the whole call, including the key-only entry that a delete broadcasts. The random
default id is a constructor parameter `randomId`.

## Model

| member | source | states |
|---|---|---|
| Utils.CalculateExpire | lib/utils.js:3-8 | The result is Infinity exactly when the ttl is Infinity. Otherwise it is the clock plus the ttl, with a missing or null ttl counting as 0. |
| Utils.Expired | lib/utils.js:11-16 | Infinity never expires. A finite timestamp is expired exactly when it is strictly below `now`. A missing timestamp counts as 0. |
| Utils.Truthy | lib/entry.js:20 | JavaScript truthiness of a lifetime or timestamp: present and not 0. No contract of its own; `CacheEntry.NewEntry` and `CacheEntry.SuppliedExpiresIsKept` state what the `expires` default built on it does. |
| Utils.EmptinessIsPresence | lib/utils.js:19-27 | `isEmpty` holds exactly for null and undefined. `isNotEmpty` is its negation. |
| Utils.InfiniteNeverExpires | lib/utils.js:3-16 | An infinite ttl gives an infinite expiry, which is never expired. |
| Utils.FiniteTtlAddsToNow | lib/utils.js:3-7 | A finite ttl is added to the clock. An omitted ttl yields the clock itself. |
| Utils.ExpiresAtNowIsLive | lib/utils.js:15 | The test is strict: an expiry equal to `now` is live, and one a millisecond earlier is expired. |
| Utils.ExpiredIsMonotone | lib/utils.js:11-16 | Once a timestamp is expired at some instant, it stays expired at every later instant. |
| Utils.FreshExpiry | lib/utils.js:3-16 | An expiry computed now from a ttl of at least 0 is live now. One computed from a negative ttl is already expired. |
| Utils.OmittedExpiresIsExpired | lib/utils.js:11 | `expired()` with no timestamp is true at any clock reading past the epoch. |
| CacheEntry.NewEntry | lib/entry.js:13-21 | Value and origin default to null and ttl defaults to -1 when undefined, and are kept otherwise (`null` included). The key is taken as given. A truthy `expires` is kept verbatim. Otherwise (missing, null or 0) it is `calculateExpire(ttl)` at `now`. |
| CacheEntry.Falsy | lib/cache.js:206 | The falsy keys: `""`, 0 and false. No contract of its own; `CacheSpec.KeepTruthy` and `CacheSpec.LoadHidesFalsyKey` state how the filter uses it. |
| CacheEntry.AssertLoose | lib/entry.js:103-108 | Holds exactly when key and value are present (neither null nor undefined). |
| CacheEntry.AssertStrict | lib/entry.js:110-115 | Holds exactly when `assertLoose` holds and the ttl is present too. |
| CacheEntry.Entry.Fields | lib/entry.js:40-78 | The accessors expose exactly the five stored fields. |
| CacheEntry.Entry.ToJSON | lib/entry.js:88-97 | The JSON form has the five fields plus `type: 'TtlMemCacheEntry'`. |
| CacheEntry.Entry.Expired | lib/entry.js:84-86 | A finite expiry is expired exactly when it is strictly below `now`; an infinite one never is. |
| CacheEntry.DefaultEntry | lib/entry.js:13-21 | `new Entry()` has: key undefined, value and origin null, ttl -1, expires `now - 1`. It is already expired. |
| CacheEntry.SuppliedExpiresIsKept | lib/entry.js:20 | A truthy `expires` makes the entry independent of the clock. A falsy one (missing, null or 0) is replaced by `calculateExpire(ttl)` at `now`, so a ttl of 0 gives `now`. |
| CacheEntry.EntryExpiredDelegates | lib/entry.js:84-86 | `entry.expired(now)` is `utils.expired(entry.expires, now)`. |
| CacheEntry.ValidatorsAgree | lib/entry.js:103-115 | `assertLoose` holds exactly when key and value are present. `assertStrict` additionally needs the ttl, so it implies `assertLoose`. The empty object passes neither. |
| CacheEntry.FromJSONRoundTrip | lib/entry.js:13-21 | Building an entry from another entry's `toJSON()` (or from its accessors) at any time gives back the same entry, when its `expires` is not 0. |
| CacheEntry.ConstructedRoundTrip | lib/entry.js:13-21 | Every constructed entry with a non-zero expiry survives its own `toJSON` round trip. |
| CacheSpec.Without | lib/cache.js:110 | The order after `Map.prototype.delete`: the key is gone and nothing is added. `CacheSpec.Del` states the rest: every other key stays, in its order. |
| CacheSpec.Put | lib/cache.js:100 | `Map.prototype.set` on the state. No contract of its own; `Cache.TtlMemCache.MapSet` states it: an existing key keeps its place, a new key goes last. |
| CacheSpec.KeyOnly | lib/cache.js:112 | The entry a delete broadcasts carries the key, a null value and origin, ttl -1 and expiry `now - 1`, so it is already expired. Its JSON form is not loose, so a receiving cache deletes the key rather than storing it. |
| CacheSpec.Del | lib/cache.js:108-116 | Returns true exactly when the key was stored. In that case it removes only that key and keeps the order of the rest. It emits a key-only `broadcast` and then `dispose(key, value)`. An absent key changes nothing and emits nothing. The invariant is kept. |
| CacheSpec.Get | lib/cache.js:122-142 | Absent key: null, nothing changes. Live entry: its value, nothing changes. Expired entry: deleted as by `del`, and the call returns the value when `stale`, null otherwise. |
| CacheSpec.SetEntry | lib/cache.js:78-98 | The stored entry keeps the record's key and value. Its ttl is the record's; if that is undefined, the cache's; if that is undefined too, -1. A `null` ttl is kept. Its origin defaults to the cache id. A truthy `expires` is passed through; otherwise the expiry is computed from the ttl at `now`. |
| CacheSpec.SetRecord | lib/cache.js:78-106 | Throws with nothing changed when the key is empty (checked first) or the value is empty. Otherwise it replaces the key's entry and leaves every other key alone. It emits `broadcast` then `set`, with payload `{oldVal: get(key), newVal}` under changefeed, and returns the value. The key keeps its position, unless a changefeed `get` found it expired and moved it to the end. |
| CacheSpec.SetRecordWellFormed | lib/cache.js:78-106 | `[_set]` keeps the invariant. |
| CacheSpec.Set | lib/cache.js:144-146 | `set` throws on an empty key or value. Otherwise it returns the value and stores it with origin = the cache id. The expiry is computed from the given ttl, else the cache's, else -1. |
| CacheSpec.Classify | lib/cache.js:231-250 | A record is ignored exactly when it is loose and matches the stored entry's key and `expires`. Any other loose record is set. A keyed record without a value is deleted. A record without a key is an error. |
| CacheSpec.Write | lib/cache.js:217-252 | An undecodable chunk emits one error. Otherwise the record is ignored with nothing changed, applied as `[_set]`, applied as `[_del]`, or rejected with one error and nothing else changed. |
| CacheSpec.WriteWellFormed | lib/cache.js:217-252 | `_write` keeps the invariant. |
| CacheSpec.LiveKeys | lib/cache.js:177-184 | Only keys of the visited order whose entries are live are kept. |
| CacheSpec.LiveKeysMembers | lib/cache.js:177-184 | Every visited key with a live entry is kept. |
| CacheSpec.SweepOne | lib/cache.js:180-182 | One `forEach` callback of `prune`: delete the visited key if its entry is expired. No contract of its own; `CacheSpec.SweepAll` states what the whole pass does. |
| CacheSpec.Sweep | lib/cache.js:179-183 | The `forEach` pass as a fold of `SweepOne` over the visited keys. No contract of its own; `CacheSpec.SweepAll` states its result. |
| CacheSpec.SweepAll | lib/cache.js:179-183 | The `forEach` pass that deletes each expired entry as it is visited leaves exactly the live entries, in their order. It emits one delete's events per expired key, in Map order. |
| CacheSpec.Prune | lib/cache.js:177-184 | Afterwards the Map holds exactly the entries live at `now`, unchanged and in their previous order. The events are a broadcast/dispose pair per removed entry, in Map order. The invariant is kept. |
| CacheSpec.PruneIdempotent | lib/cache.js:177-184 | After `prune` no expired entry remains, so pruning again at the same instant changes nothing. |
| CacheSpec.Values | lib/cache.js:157-172 | The collected array has one value per key, in order, each passed through the mutator. |
| CacheSpec.Collect | lib/cache.js:157-172 | The pushes of the `entries` callback, fold by fold. No contract of its own; `CacheSpec.CollectIsValues` states what it collects. |
| CacheSpec.CollectIsValues | lib/cache.js:157-172 | What the `forEach` pushes is the values of the live keys, or of every key when `stale`. |
| CacheSpec.Entries | lib/cache.js:152-175 | `entries` makes exactly the deletions and events of `prune`. It returns, in Map order, the mutated values of the live entries, plus those of the expired ones when `stale`. Without `stale` it returns as many values as entries remain. |
| CacheSpec.Clear | lib/cache.js:186-189 | `clear` empties the Map and emits a single `clear` event and no dispose. |
| CacheSpec.DumpOf | lib/cache.js:191-193 | Each key is paired with its entry, in the given order. |
| CacheSpec.Dump | lib/cache.js:191-193 | `dump` lists every entry, expired or not, as `[key, entry]` in Map order, and changes nothing. |
| CacheSpec.Length | lib/cache.js:209-211 | `length` is the number of keys in the Map. |
| CacheSpec.Loaded | lib/cache.js:199-205 | The mapped array has one slot per item. It holds the record's key exactly when the record is strict, and undefined otherwise. |
| CacheSpec.KeepTruthy | lib/cache.js:206 | The filter keeps exactly the present, truthy keys, and is never longer than its input. |
| CacheSpec.KeepTruthyConcat | lib/cache.js:206 | The filter works slot by slot: filtering a concatenation concatenates the filtered parts. With `KeepTruthyOne`, this fixes the order and the repeats of the result. |
| CacheSpec.KeepTruthyOne | lib/cache.js:206 | A single slot is kept exactly when it holds a present, truthy key. |
| CacheSpec.LastForLoaded | lib/cache.js:199-206 | The mapped array holds a key exactly when some strict record carries it, and the last such record is strict and carries that key. |
| CacheSpec.LoadOne | lib/cache.js:200-202 | One `map` callback of `load`: a strict record is stored under its own key. No contract of its own; `CacheSpec.LoadAllEffect` states the effect of the whole loop. |
| CacheSpec.LoadAll | lib/cache.js:199-205 | The `map` loop as a fold of `LoadOne`. No contract of its own; `CacheSpec.LoadAllEffect` states its result. |
| CacheSpec.LoadAllEffect | lib/cache.js:199-205 | The loop emits nothing. Afterwards a key is stored when it was stored before or some strict record carries it. The last such record's entry wins, other keys keep their entries, and the old order stays a prefix. |
| CacheSpec.LoadAllWellFormed | lib/cache.js:199-205 | `load` keeps the invariant. |
| CacheSpec.Load | lib/cache.js:195-207 | Throws with nothing changed on a non-array. Otherwise it stores each strict record under its own key (the last per key wins), emits nothing and leaves other keys alone. It returns the filtered per-item array: the key of each strict record, in input order with repeats, truthy keys only. |
| CacheSpec.LoadKeepsRepeats | lib/cache.js:199-206 | Two strict records for "a" return `["a", "a"]`. |
| CacheSpec.LoadHidesFalsyKey | lib/cache.js:199-206 | A strict record keyed `""` is stored, but not reported. |
| CacheSpec.Reloadable | lib/cache.js:200 | Keeps exactly the keys whose entry has the ttl that `assertStrict` demands. |
| CacheSpec.LoadDumpRoundTrip | lib/cache.js:191-207 | `load(dump())` into an empty cache restores, in the same order, every entry that has a ttl, unchanged, and emits nothing. When every entry has a ttl, the restored Map equals the dumped one. A state that holds any entry with expiry 0 is excluded as a whole. |
| CacheSpec.GetExpiredTwice | lib/cache.js:122-142 | After `get` has deleted an expired entry, a second `get` returns null and changes nothing. |
| CacheSpec.GetAfterSet | lib/cache.js:122-146 | A value set with a lifetime of at least 0 is what `get` returns, with nothing changed, until its expiry instant. After that `get` deletes it and returns null, or the value when `stale`. |
| CacheSpec.ReplicaEntryIsSame | lib/cache.js:78-98 | `[_set]` applied to an entry's `toJSON()` rebuilds exactly that entry, origin and expiry included. |
| CacheSpec.EchoIsIgnored | lib/cache.js:231-238 | A cache that receives its own entry's broadcast ignores it and changes nothing. |
| CacheSpec.ReplicatedSetConverges | lib/cache.js:231-243 | An entry set on cache A, broadcast and written into cache B, leaves B with that key and expiry. Unless B ignored it as an echo, B stores A's entry itself and emits its exact events. These are a delete's broadcast and dispose first when B is in changefeed mode with an expired old entry, then A's entry and the `set` event. A ignores the broadcast of its own entry. |
| CacheSpec.ChangefeedReplicaSendsDelete | lib/cache.js:89-91 | A changefeed cache holding an expired, different entry for the key broadcasts a key-only record before the incoming entry. |
| CacheSpec.DeleteThenSetBounces | lib/cache.js:231-247 | A cache holding the key that receives a key-only record and then an entry deletes and re-stores it. It emits a key-only record for the same key (stamped with its own clock), then the same entry it received. |
| CacheSpec.DeleteReplicates | lib/cache.js:245-248 | The key-only record a delete broadcasts deletes that key in the receiver. It does nothing when the key is already gone, so a delete echo stops. |
| Cache.TtlMemCache.constructor | lib/cache.js:14-43 | A new cache is empty. ttl defaults to five minutes, and only when omitted. A falsy id is replaced by the random id. |
| Cache.TtlMemCache.MapSet | lib/cache.js:100 | `Map.prototype.set`: an existing key keeps its place, and a new key goes last. |
| Cache.TtlMemCache.Del | lib/cache.js:108-116 | Performs `CacheSpec.Del` in place and keeps the invariant. |
| Cache.TtlMemCache.Get | lib/cache.js:122-142 | Performs `CacheSpec.Get` in place and keeps the invariant. |
| Cache.TtlMemCache.SetRecord | lib/cache.js:78-106 | Performs `CacheSpec.SetRecord` in place, changefeed `get` included, and keeps the invariant. |
| Cache.TtlMemCache.Set | lib/cache.js:144-146 | Performs `CacheSpec.Set` in place. |
| Cache.TtlMemCache.Write | lib/cache.js:217-252 | Performs `CacheSpec.Write` in place. |
| Cache.TtlMemCache.Prune | lib/cache.js:177-184 | The loop over the Map deleting expired entries performs `CacheSpec.Prune`. |
| Cache.TtlMemCache.Entries | lib/cache.js:152-175 | The loop performs `CacheSpec.Entries` and returns its array. |
| Cache.TtlMemCache.VisitForEntries | lib/cache.js:157-172 | One callback of the `forEach`: deletes the entry if expired, and yields its mutated value if it is live or `stale`. |
| Cache.TtlMemCache.Clear | lib/cache.js:186-189 | Performs `CacheSpec.Clear` in place. |
| Cache.TtlMemCache.Load | lib/cache.js:195-207 | The map-then-filter loops perform `CacheSpec.Load`. |
| Cache.FilterTruthy | lib/cache.js:206 | The filter loop computes `KeepTruthy`. |

## Left out

- Stream plumbing is not modelled: the `stream.Duplex` base, `_read`, and the `broadcast` listener that pushes entries to readers (lib/cache.js:45-53, 254-256). The pipe/unpipe listener-limit bookkeeping (lib/cache.js:57-63) is left out too. A `broadcast` is only an event in the log.
- JSON decoding in `_write` (lib/cache.js:222-228), `JSON.stringify` and `Symbol.toPrimitive` are library calls. Inbound data is an already-decoded `Chunk`, and a parse failure is `DecodeError`, which emits one error. Because of this, the JSON text form's turning of `Infinity` into `null` is not modelled.
- `Symbol.toStringTag` is not modelled.
- `utils.isFunction` is not modelled as reflection: the mutator of `entries` is an `Option` of a pure function.
- `crypto.randomBytes` and `Date.now()` are not called. The random id and the clock are parameters.
- `isEmpty` and `isNotEmpty` are predicates without contracts of their own. `Utils.EmptinessIsPresence` states what they mean.
- Timestamps and lifetimes are integers plus `Infinite`. IEEE doubles, `NaN`, `-Infinity` and rounding are not modelled.
- Keys are strings, numbers or booleans compared by value. Object keys compared by identity are not modelled.
- `stale` and `changefeed` are booleans, where the source accepts any value and tests its truthiness.
- The entry setters only throw and change nothing (lib/entry.js:44-78). The datatype has no update operation at all, which is that guarantee.
- `load` items are `[key, record]` pairs whose second half is an object. Some throwing paths are not modelled: an element that is not indexable (`null[1]` throws), and a pair whose second half is `null`. For the latter, `assertStrict(null)` reads `null.key` and throws, because its `{}` default replaces only `undefined` (lib/entry.js:110-111). The TypeError comes after the earlier records were already stored (lib/cache.js:199-202).
- A chunk that is `null` is not modelled. This covers a `null` in object mode and a byte chunk that parses to JSON `null`. On such a chunk, `assertLoose(null)` throws a TypeError (lib/cache.js:224, 231, lib/entry.js:103-104), instead of the error event the model emits for other rejected records.
- `emit('error')` with no `error` listener throws in Node. The model records every error as an event, as if a listener were attached.
- Replication between two caches piped both ways is not promised to settle. When the receiving cache is in changefeed mode and holds an expired, different entry for the key, its `[_set]` first deletes that entry through `get` (lib/cache.js:89-91, 127-128). It then broadcasts a key-only record ahead of the entry (`CacheSpec.ChangefeedReplicaSendsDelete`). Any cache holding the key answers that pair with the same pair (`CacheSpec.DeleteThenSetBounces`), so with in-order delivery the two caches keep deleting and re-storing the key. The model states these steps but not the unbounded exchange, since streams are not modelled.
- `Cache.TtlMemCache.Dump`, `Cache.TtlMemCache.Length`: these read-only class functions return `CacheSpec.Dump` and `CacheSpec.Length` of the current state and carry no contract of their own. The contracts are on those two functions.
- Re-entrancy is not modelled: user listeners on `set`, `dispose` or `clear` that call back into the cache while an event is emitted. Events are appended to a log instead.
- Echo detection follows the code, not the idea of comparing `origin` with the cache id. A record is ignored when its key and `expires` equal the stored entry's (lib/cache.js:231-238).
