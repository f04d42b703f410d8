/** The in-memory cache of the aggregate collection and of the filter options: two slots, each holding
    the last value written and the time it was written, read back only while younger than two hours.
    The clock is a parameter: every operation that consults `Date.now()` takes `now` in milliseconds. */
module Cache {
  import opened Wrappers
  import opened Types

  /** Two hours, in milliseconds. */
  const CACHE_DURATION: int := 2 * 60 * 60 * 1000

  datatype CacheEntry<T> = CacheEntry(data: T, timestamp: int)

  /** `isCacheValid`: an entry exists and is strictly younger than the cache duration. */
  predicate IsCacheValid<T>(cache: Option<CacheEntry<T>>, now: int)
  {
    cache.Some? && now - cache.value.timestamp < CACHE_DURATION
  }

  /** What a getter returns for a slot: its data while valid, otherwise nothing. */
  function Fresh<T>(cache: Option<CacheEntry<T>>, now: int): Option<T>
  {
    if IsCacheValid(cache, now) then Some(cache.value.data) else None
  }

  /** A value written at `t` is read back at `now` exactly when less than 7 200 000 ms have passed. */
  lemma ReadAfterWrite<T>(x: T, t: int, now: int)
    ensures Fresh(Some(CacheEntry(x, t)), now) == (if now - t < 7200000 then Some(x) else None)
  {
  }

  /** The bound is strict: a read exactly one cache duration after the write misses, one millisecond
      earlier hits. */
  lemma ExpiryIsStrict<T>(x: T, t: int)
    ensures Fresh(Some(CacheEntry(x, t)), t + CACHE_DURATION) == None
    ensures Fresh(Some(CacheEntry(x, t)), t + CACHE_DURATION - 1) == Some(x)
  {
  }

  /** Once a slot has expired it stays expired as time goes on. */
  lemma ExpiredStaysExpired<T>(cache: Option<CacheEntry<T>>, now: int, later: int)
    requires now <= later && Fresh(cache, now).None?
    ensures Fresh(cache, later).None?
  {
  }

  /** The contents of both slots. */
  datatype CacheState = CacheState(spots: Option<CacheEntry<seq<Spot>>>,
                                   filterOptions: Option<CacheEntry<FilterOptions>>)

  /** The calls that change the cache. */
  datatype CacheOp =
    | CacheSpotsOp(spots: seq<Spot>, at: int)
    | CacheFilterOptionsOp(options: FilterOptions, at: int)
    | ClearCachesOp

  /** The effect of one call on the slots. */
  function Apply(s: CacheState, op: CacheOp): CacheState
  {
    match op
    case CacheSpotsOp(x, t) => s.(spots := Some(CacheEntry(x, t)))
    case CacheFilterOptionsOp(o, t) => s.(filterOptions := Some(CacheEntry(o, t)))
    case ClearCachesOp => CacheState(None, None)
  }

  /** The effect of a series of calls, applied first to last. */
  function Replay(s: CacheState, ops: seq<CacheOp>): CacheState
    decreases |ops|
  {
    if ops == [] then s else Replay(Apply(s, ops[0]), ops[1..])
  }

  /** The spots slot as the history determines it: the last spots write, unless a clear came after it;
      the initial slot when neither happened. */
  function LatestSpots(init: Option<CacheEntry<seq<Spot>>>, ops: seq<CacheOp>): Option<CacheEntry<seq<Spot>>>
    decreases |ops|
  {
    if ops == [] then init
    else match ops[|ops| - 1]
      case CacheSpotsOp(x, t) => Some(CacheEntry(x, t))
      case ClearCachesOp => None
      case CacheFilterOptionsOp(_, _) => LatestSpots(init, ops[..|ops| - 1])
  }

  /** The filter-options slot as the history determines it. */
  function LatestFilterOptions(init: Option<CacheEntry<FilterOptions>>, ops: seq<CacheOp>)
    : Option<CacheEntry<FilterOptions>>
    decreases |ops|
  {
    if ops == [] then init
    else match ops[|ops| - 1]
      case CacheFilterOptionsOp(o, t) => Some(CacheEntry(o, t))
      case ClearCachesOp => None
      case CacheSpotsOp(_, _) => LatestFilterOptions(init, ops[..|ops| - 1])
  }

  lemma {:induction false} ReplayAppendOne(s: CacheState, ops: seq<CacheOp>, op: CacheOp)
    ensures Replay(s, ops + [op]) == Apply(Replay(s, ops), op)
    decreases |ops|
  {
    if ops != [] {
      assert (ops + [op])[1..] == ops[1..] + [op];
      ReplayAppendOne(Apply(s, ops[0]), ops[1..], op);
    }
  }

  /** Writes overwrite unconditionally and the slots are independent: after any series of calls each
      slot holds what the last write to it (or the last clear) left there. */
  lemma {:induction false} ReplaySlots(s: CacheState, ops: seq<CacheOp>)
    ensures Replay(s, ops).spots == LatestSpots(s.spots, ops)
    ensures Replay(s, ops).filterOptions == LatestFilterOptions(s.filterOptions, ops)
    decreases |ops|
  {
    if ops != [] {
      var init := ops[..|ops| - 1];
      assert ops == init + [ops[|ops| - 1]];
      ReplayAppendOne(s, init, ops[|ops| - 1]);
      ReplaySlots(s, init);
    }
  }

  /** A cache that was never written to returns nothing, whatever the series of calls that only wrote
      the other slot. */
  lemma NeverWrittenMisses(ops: seq<CacheOp>, now: int)
    requires forall i :: 0 <= i < |ops| ==> !ops[i].CacheSpotsOp?
    ensures Fresh(Replay(CacheState(None, None), ops).spots, now) == None
  {
    ReplaySlots(CacheState(None, None), ops);
    NoSpotsWriteKeepsNone(ops);
  }

  lemma {:induction false} NoSpotsWriteKeepsNone(ops: seq<CacheOp>)
    requires forall i :: 0 <= i < |ops| ==> !ops[i].CacheSpotsOp?
    ensures LatestSpots(None, ops) == None
    decreases |ops|
  {
    if ops != [] {
      NoSpotsWriteKeepsNone(ops[..|ops| - 1]);
    }
  }

  /** The two module-level slots. */
  class Caches {
    var spotsCache: Option<CacheEntry<seq<Spot>>>
    var filterOptionsCache: Option<CacheEntry<FilterOptions>>

    function State(): CacheState
      reads this
    {
      CacheState(spotsCache, filterOptionsCache)
    }

    /** Both slots start empty. */
    constructor()
      ensures spotsCache == None && filterOptionsCache == None
    {
      spotsCache := None;
      filterOptionsCache := None;
    }

    /** `cacheSpots`: overwrite the spots slot, stamped with the current time. */
    method CacheSpots(spots: seq<Spot>, now: int)
      modifies this
      ensures spotsCache == Some(CacheEntry(spots, now))
      ensures filterOptionsCache == old(filterOptionsCache)
      ensures State() == Apply(old(State()), CacheSpotsOp(spots, now))
    {
      spotsCache := Some(CacheEntry(spots, now));
    }

    /** `getCachedSpots`. */
    method GetCachedSpots(now: int) returns (r: Option<seq<Spot>>)
      ensures r.Some? <==> spotsCache.Some? && now - spotsCache.value.timestamp < CACHE_DURATION
      ensures r.Some? ==> r.value == spotsCache.value.data
    {
      r := if IsCacheValid(spotsCache, now) then Some(spotsCache.value.data) else None;
    }

    /** `cacheFilterOptions`: overwrite the filter-options slot, stamped with the current time. */
    method CacheFilterOptions(options: FilterOptions, now: int)
      modifies this
      ensures filterOptionsCache == Some(CacheEntry(options, now))
      ensures spotsCache == old(spotsCache)
      ensures State() == Apply(old(State()), CacheFilterOptionsOp(options, now))
    {
      filterOptionsCache := Some(CacheEntry(options, now));
    }

    /** `getCachedFilterOptions`. */
    method GetCachedFilterOptions(now: int) returns (r: Option<FilterOptions>)
      ensures r.Some? <==> filterOptionsCache.Some? && now - filterOptionsCache.value.timestamp < CACHE_DURATION
      ensures r.Some? ==> r.value == filterOptionsCache.value.data
    {
      r := if IsCacheValid(filterOptionsCache, now) then Some(filterOptionsCache.value.data) else None;
    }

    /** `clearCaches`: both slots emptied. */
    method ClearCaches()
      modifies this
      ensures spotsCache == None && filterOptionsCache == None
      ensures State() == Apply(old(State()), ClearCachesOp)
    {
      spotsCache := None;
      filterOptionsCache := None;
    }
  }

  /** A typical session: after writing spots at `t`, both getters behave as the slots say, and after a
      clear both miss. */
  method Session(spots: seq<Spot>, options: FilterOptions, t: int, now: int)
    returns (hit: Option<seq<Spot>>, optionsBeforeWrite: Option<FilterOptions>, afterClear: Option<seq<Spot>>)
    ensures hit == (if now - t < CACHE_DURATION then Some(spots) else None)
    ensures optionsBeforeWrite == None
    ensures afterClear == None
  {
    var c := new Caches();
    c.CacheSpots(spots, t);
    hit := c.GetCachedSpots(now);
    optionsBeforeWrite := c.GetCachedFilterOptions(now);
    c.CacheFilterOptions(options, t);
    c.ClearCaches();
    afterClear := c.GetCachedSpots(now);
  }
}
