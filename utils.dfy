/** Expiry arithmetic and the null/undefined predicates shared by the entry and the cache (lib/utils.js). */
module Utils {

  /** A JavaScript value that may be missing: `undefined`, `null`, or a present value. */
  datatype Nullable<T> = Undefined | Null | Defined(value: T)

  /**
   * A JavaScript number as the cache uses it for lifetimes and timestamps:
   * a whole number of milliseconds, or `Infinity` (the never-expiring lifetime).
   */
  datatype Millis = Finite(ms: int) | Infinite

  /** `isEmpty`: only `null` and `undefined` are empty. */
  predicate IsEmpty<T>(x: Nullable<T>)
  {
    x.Undefined? || x.Null?
  }

  /** `isNotEmpty`: the negation of `isEmpty`. */
  predicate IsNotEmpty<T>(x: Nullable<T>)
  {
    !IsEmpty(x)
  }

  /**
   * `calculateExpire(ttl)` evaluated at clock reading `now`. An `Infinity` ttl stays
   * `Infinity`; a numeric ttl is added to `now`; an omitted ttl takes its default 0,
   * and `null` reads as 0 under `+`, so both give `now`.
   */
  function CalculateExpire(ttl: Nullable<Millis>, now: int): (r: Millis)
    ensures r.Infinite? <==> ttl == Defined(Infinite)
    ensures r.Finite? ==> r.ms - now == (if ttl.Defined? then ttl.value.ms else 0)
  {
    match ttl
    case Defined(Infinite) => Infinite
    case Defined(Finite(t)) => Finite(now + t)
    case _ => Finite(now)
  }

  /**
   * `expired(expires, now)`. `Infinity` never expires; otherwise the comparison is the
   * strict `expires < now`. An omitted `expires` takes its default 0, and `null` reads
   * as 0 under `<`.
   */
  function Expired(expires: Nullable<Millis>, now: int): (r: bool)
    ensures expires == Defined(Infinite) ==> !r
    ensures expires.Defined? && expires.value.Finite? ==> (r <==> expires.value.ms < now)
    ensures !expires.Defined? ==> (r <==> 0 < now)
  {
    match expires
    case Defined(Infinite) => false
    case Defined(Finite(e)) => e < now
    case _ => 0 < now
  }

  /** Lifetimes and timestamps are JavaScript numbers: 0 is the only falsy one here. */
  predicate Truthy(x: Nullable<Millis>)
  {
    x.Defined? && x.value != Finite(0)
  }

  // ---------------------------------------------------------------------------
  // Properties of the expiry arithmetic
  // ---------------------------------------------------------------------------

  /** `isNotEmpty` holds exactly for present values, and is the negation of `isEmpty`. */
  lemma EmptinessIsPresence<T>(x: Nullable<T>)
    ensures IsEmpty(x) <==> (x == Undefined || x == Null)
    ensures IsNotEmpty(x) <==> x.Defined?
    ensures IsNotEmpty(x) != IsEmpty(x)
  {
  }

  /** An `Infinity` lifetime gives an `Infinity` expiry, which is never expired. */
  lemma InfiniteNeverExpires(now: int)
    ensures CalculateExpire(Defined(Infinite), now) == Infinite
    ensures !Expired(Defined(CalculateExpire(Defined(Infinite), now)), now)
  {
  }

  /** A finite ttl is added to the clock; an omitted ttl gives the clock reading itself. */
  lemma FiniteTtlAddsToNow(ttl: int, now: int)
    ensures CalculateExpire(Defined(Finite(ttl)), now) == Finite(now + ttl)
    ensures CalculateExpire(Undefined, now) == Finite(now)
  {
  }

  /** The comparison is strict: a timestamp equal to `now` is still live. */
  lemma ExpiresAtNowIsLive(now: int)
    ensures !Expired(Defined(Finite(now)), now)
    ensures Expired(Defined(Finite(now - 1)), now)
  {
  }

  /** Once expired, always expired: `expired` is monotone in the clock. */
  lemma ExpiredIsMonotone(expires: Nullable<Millis>, t1: int, t2: int)
    requires Expired(expires, t1) && t1 <= t2
    ensures Expired(expires, t2)
  {
  }

  /**
   * An expiry computed now from a ttl of at least 0 is not expired now;
   * one computed from a negative ttl (the entry default is -1) already is.
   */
  lemma FreshExpiry(ttl: int, now: int)
    ensures ttl >= 0 ==> !Expired(Defined(CalculateExpire(Defined(Finite(ttl)), now)), now)
    ensures ttl < 0 ==> Expired(Defined(CalculateExpire(Defined(Finite(ttl)), now)), now)
  {
  }

  /** `expired()` with no timestamp treats it as 0, so any clock past the epoch says expired. */
  lemma OmittedExpiresIsExpired(now: int)
    requires now > 0
    ensures Expired(Undefined, now)
  {
  }
}
