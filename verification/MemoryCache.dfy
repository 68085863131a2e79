/**
 The in-memory cache as a value: a JavaScript `Map` is its keys in insertion
 order and their entries. Times are milliseconds, lifetimes seconds.
 */
module MemoryCache {
  import opened Prelude

  /** A cached result; null is both a storable result and what a miss reads as. */
  datatype Value<+T> = Null | Of(value: T)

  /** `expiresAt` None is null; a zero timestamp is falsy, so it never expires either. */
  datatype Entry<+T> = Entry(value: Value<T>, expiresAt: Option<int>)
  {
    predicate Expired(now: int) {
      expiresAt.Some? && expiresAt.value != 0 && now > expiresAt.value
    }
  }

  /** The keys of `order` in `keep`. */
  function Retain(order: seq<string>, keep: set<string>): seq<string> {
    if order == [] then []
    else (if order[0] in keep then [order[0]] else []) + Retain(order[1..], keep)
  }

  datatype Cache<T> = Cache(order: seq<string>, entries: map<string, Entry<T>>, maxEntries: int, defaultTtl: int)
  {
    /** Each entry's key is in the order once. */
    ghost predicate Valid() {
      && (forall k :: k in order <==> k in entries)
      && (forall i, j :: 0 <= i < j < |order| ==> order[i] != order[j])
    }

    function Keep(keys: set<string>): Cache<T> {
      this.(order := Retain(order, keys), entries := map k | k in entries && k in keys :: entries[k])
    }

    function Delete(key: string): Cache<T> {
      Keep(entries.Keys - {key})
    }

    /** `Map.set`: a key already there keeps its place. */
    function Put(key: string, entry: Entry<T>): Cache<T> {
      this.(order := if key in entries then order else order + [key], entries := entries[key := entry])
    }

    /** Drops the oldest key when full; the empty string is falsy, so as the oldest key it is never dropped. */
    function EvictIfNeeded(): Cache<T> {
      if |order| >= maxEntries && order != [] && order[0] != "" then Delete(order[0]) else this
    }

    function Expiry(ttl: Option<int>, now: int): Option<int> {
      var effective := if ttl.Some? then ttl.value else defaultTtl;
      if effective > 0 then Some(now + effective * 1000) else None
    }

    function Set(key: string, value: Value<T>, ttl: Option<int>, now: int): Cache<T> {
      EvictIfNeeded().Put(key, Entry(value, Expiry(ttl, now)))
    }

    /** Looking a key up drops it when it has expired. */
    function Touch(key: string, now: int): Cache<T> {
      if Expires(key, now) then Delete(key) else this
    }

    function Get(key: string, now: int): Value<T> {
      if key in entries && !entries[key].Expired(now) then entries[key].value else Null
    }

    function Exists(key: string, now: int): bool {
      key in entries && !entries[key].Expired(now)
    }

    predicate Expires(key: string, now: int) {
      key in entries && entries[key].Expired(now)
    }

    function Cleanup(now: int): Cache<T> {
      Keep(set k | k in entries && !entries[k].Expired(now))
    }

    function Clear(): Cache<T> {
      this.(order := [], entries := map[])
    }
  }

  /** `options.max || 1000`, `options.defaultTtl || 300` */
  function Fresh<T>(max: Option<int>, defaultTtl: Option<int>): Cache<T> {
    Cache([], map[],
          if max.Some? && max.value != 0 then max.value else 1000,
          if defaultTtl.Some? && defaultTtl.value != 0 then defaultTtl.value else 300)
  }

  datatype Op<T> =
    | SetOp(key: string, value: Value<T>, ttl: Option<int>, now: int)
    | LookUp(key: string, now: int)
    | DeleteOp(key: string)
    | ClearOp
    | CleanupOp(now: int)

  function Apply<T>(c: Cache<T>, op: Op<T>): Cache<T> {
    match op
    case SetOp(k, v, ttl, now) => c.Set(k, v, ttl, now)
    case LookUp(k, now) => c.Touch(k, now)
    case DeleteOp(k) => c.Delete(k)
    case ClearOp => c.Clear()
    case CleanupOp(now) => c.Cleanup(now)
  }

  function ApplyAll<T>(c: Cache<T>, ops: seq<Op<T>>): Cache<T> {
    if ops == [] then c else Apply(ApplyAll(c, ops[..|ops| - 1]), ops[|ops| - 1])
  }
}
