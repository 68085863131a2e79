/** The cache provider, the cache service and a wrapped function, as objects updated in place. */
module CacheServices {
  import opened Prelude
  import opened MemoryCache
  import opened CacheTheorems

  lemma {:induction false} RetainTwice(order: seq<string>, first: set<string>, second: set<string>)
    ensures Retain(Retain(order, first), second) == Retain(order, first * second)
  {
    if order != [] {
      RetainTwice(order[1..], first, second);
      var rest := Retain(order[1..], first);
      if order[0] in first {
        assert ([order[0]] + rest)[1..] == rest;
      } else {
        assert Retain(order, first) == rest;
      }
    }
  }

  /** Deleting is subtracting the key from both halves, and leaves one key less if it was there. */
  lemma DeleteParts<T>(c: Cache<T>, key: string)
    requires c.Valid()
    ensures c.Delete(key) == c.(order := Retain(c.order, c.entries.Keys - {key}), entries := c.entries - {key})
    ensures |c.Delete(key).entries| == |c.entries| - if key in c.entries then 1 else 0
    ensures c.Delete(key).Valid()
  {
    assert c.Delete(key).entries == c.entries - {key};
    assert c.Delete(key).entries.Keys == c.entries.Keys - {key};
    assert |c.entries| == |c.entries.Keys| && |c.Delete(key).entries| == |c.Delete(key).entries.Keys|;
    KeepValid(c, c.entries.Keys - {key});
  }

  /** Deleting one more key from what was kept is keeping one key less. */
  lemma KeepThenDelete<T>(c: Cache<T>, keys: set<string>, key: string)
    requires keys <= c.entries.Keys
    ensures c.Keep(keys).Delete(key) == c.Keep(keys - {key})
  {
    assert c.Keep(keys).entries.Keys == keys;
    RetainTwice(c.order, keys, keys - {key});
    assert keys * (keys - {key}) == keys - {key};
  }

  lemma KeepEverything<T>(c: Cache<T>)
    requires c.Valid()
    ensures c.Keep(c.entries.Keys) == c
  {
    RetainAll(c.order, c.entries.Keys);
  }

  /** What is left once the first `i` keys have been looked at and dropped if expired. */
  ghost function SweptTo<T>(c: Cache<T>, i: nat, now: int): Cache<T>
    requires i <= |c.order|
  {
    c.Keep(set k | k in c.entries && (k in c.order[i..] || !c.entries[k].Expired(now)))
  }

  lemma SweepOne<T>(c: Cache<T>, i: nat, now: int)
    requires c.Valid() && i < |c.order|
    ensures var here := SweptTo(c, i, now);
            && c.order[i] in here.entries && here.entries[c.order[i]] == c.entries[c.order[i]]
            && SweptTo(c, i + 1, now) == if here.entries[c.order[i]].Expired(now) then here.Delete(c.order[i]) else here
  {
    var key := c.order[i];
    var keep := set k | k in c.entries && (k in c.order[i..] || !c.entries[k].Expired(now));
    var next := set k | k in c.entries && (k in c.order[i + 1..] || !c.entries[k].Expired(now));
    assert c.order[i..] == [key] + c.order[i + 1..];
    assert key !in c.order[i + 1..];
    if c.entries[key].Expired(now) {
      assert next == keep - {key};
      KeepThenDelete(c, keep, key);
    } else {
      assert next == keep;
    }
  }

  lemma SweptBounds<T>(c: Cache<T>, now: int)
    requires c.Valid()
    ensures SweptTo(c, 0, now) == c
    ensures SweptTo(c, |c.order|, now) == c.Cleanup(now)
  {
    KeepEverything(c);
    assert c.order[0..] == c.order;
    assert c.entries.Keys == set k | k in c.entries && (k in c.order[0..] || !c.entries[k].Expired(now));
    assert (set k | k in c.entries && !c.entries[k].Expired(now))
        == set k | k in c.entries && (k in c.order[|c.order|..] || !c.entries[k].Expired(now));
  }

  function SetAll<T>(c: Cache<T>, items: seq<(string, Value<T>, Option<int>)>, clock: seq<int>): Cache<T>
    requires |clock| == |items|
  {
    if items == [] then c
    else
      var n := |items| - 1;
      SetAll(c, items[..n], clock[..n]).Set(items[n].0, items[n].1, items[n].2, clock[n])
  }

  /** Setting a batch is the run of its sets, in order, each at its own time. */
  lemma {:induction false} SetAllIsARun<T>(c: Cache<T>, items: seq<(string, Value<T>, Option<int>)>, clock: seq<int>, ops: seq<Op<T>>)
    requires |clock| == |items| == |ops|
    requires forall i :: 0 <= i < |ops| ==> ops[i] == SetOp(items[i].0, items[i].1, items[i].2, clock[i])
    ensures SetAll(c, items, clock) == ApplyAll(c, ops)
  {
    if items != [] {
      var n := |items| - 1;
      SetAllIsARun(c, items[..n], clock[..n], ops[..n]);
    }
  }

  /** Looking keys up only drops expired ones, so what a later lookup reads is what it would have read first. */
  function TouchAll<T>(c: Cache<T>, keys: seq<string>, clock: seq<int>): Cache<T>
    requires |clock| == |keys|
  {
    if keys == [] then c
    else
      var n := |keys| - 1;
      TouchAll(c, keys[..n], clock[..n]).Touch(keys[n], clock[n])
  }

  predicate Later(clock: seq<int>) {
    forall i, j :: 0 <= i < j < |clock| ==> clock[i] <= clock[j]
  }

  lemma {:induction false} TouchAllReads<T>(c: Cache<T>, keys: seq<string>, clock: seq<int>, key: string, now: int)
    requires |clock| == |keys| && forall i :: 0 <= i < |clock| ==> clock[i] <= now
    ensures TouchAll(c, keys, clock).Get(key, now) == c.Get(key, now)
  {
    if keys != [] {
      var n := |keys| - 1;
      TouchAllReads(c, keys[..n], clock[..n], key, now);
      TouchReads(TouchAll(c, keys[..n], clock[..n]), keys[n], clock[n], key, now);
    }
  }

  lemma TouchReads<T>(c: Cache<T>, touched: string, at: int, key: string, now: int)
    requires at <= now
    ensures c.Touch(touched, at).Get(key, now) == c.Get(key, now)
  {
  }

  class MemoryCacheProvider<T> {
    var order: seq<string>
    var entries: map<string, Entry<T>>
    const maxEntries: int
    const defaultTtl: int

    ghost function View(): (c: Cache<T>)
      reads this
    {
      Cache(order, entries, maxEntries, defaultTtl)
    }

    ghost predicate Valid()
      reads this
    {
      View().Valid()
    }

    constructor (max: Option<int>, defaultTtl: Option<int>)
      ensures Valid() && View() == Fresh(max, defaultTtl)
    {
      order, entries := [], map[];
      maxEntries := if max.Some? && max.value != 0 then max.value else 1000;
      this.defaultTtl := if defaultTtl.Some? && defaultTtl.value != 0 then defaultTtl.value else 300;
    }

    method Del(key: string)
      requires Valid()
      modifies this
      ensures Valid() && View() == old(View()).Delete(key)
      ensures |entries| == |old(entries)| - if key in old(entries) then 1 else 0
    {
      DeleteParts(View(), key);
      order := Retain(order, entries.Keys - {key});
      entries := entries - {key};
    }

    method EvictIfNeeded()
      requires Valid()
      modifies this
      ensures Valid() && View() == old(View()).EvictIfNeeded()
    {
      if |order| >= maxEntries {
        if order != [] && order[0] != "" {
          Del(order[0]);
        }
      }
    }

    method Set(key: string, value: Value<T>, ttl: Option<int>, now: int)
      requires Valid()
      modifies this
      ensures Valid() && View() == old(View()).Set(key, value, ttl, now)
    {
      EvictIfNeeded();
      var lifetime := if ttl.Some? then ttl.value else defaultTtl;
      var entry := Entry(value, if lifetime > 0 then Some(now + lifetime * 1000) else None);
      if key !in entries {
        order := order + [key];
      }
      entries := entries[key := entry];
    }

    method Get(key: string, now: int) returns (r: Value<T>)
      requires Valid()
      modifies this
      ensures Valid() && View() == old(View()).Touch(key, now)
      ensures r == old(View()).Get(key, now)
    {
      if key !in entries {
        return Null;
      }
      var entry := entries[key];
      if entry.Expired(now) {
        Del(key);
        return Null;
      }
      return entry.value;
    }

    method Exists(key: string, now: int) returns (r: bool)
      requires Valid()
      modifies this
      ensures Valid() && View() == old(View()).Touch(key, now)
      ensures r == old(View()).Exists(key, now)
    {
      if key !in entries {
        return false;
      }
      if entries[key].Expired(now) {
        Del(key);
        return false;
      }
      return true;
    }

    /** The pass over a map whose keys are deleted on the way, with one reading of the clock. */
    method Cleanup(now: int) returns (cleaned: nat)
      requires Valid()
      modifies this
      ensures Valid() && View() == old(View()).Cleanup(now)
      ensures cleaned == |old(entries)| - |entries|
    {
      cleaned := 0;
      ghost var was := View();
      SweptBounds(was, now);
      var keys := order;
      assert keys == was.order;
      for i := 0 to |keys|
        invariant Valid() && View() == SweptTo(was, i, now)
        invariant cleaned == |was.entries| - |entries|
      {
        SweepOne(was, i, now);
        if entries[keys[i]].Expired(now) {
          Del(keys[i]);
          cleaned := cleaned + 1;
        }
      }
    }

    method Clear()
      modifies this
      ensures Valid() && View() == old(View()).Clear()
    {
      order, entries := [], map[];
    }

    method Mset(items: seq<(string, Value<T>, Option<int>)>, clock: seq<int>)
      requires Valid() && |clock| == |items|
      modifies this
      ensures Valid() && View() == SetAll(old(View()), items, clock)
    {
      for i := 0 to |items|
        invariant Valid() && View() == SetAll(old(View()), items[..i], clock[..i])
      {
        Set(items[i].0, items[i].1, items[i].2, clock[i]);
        assert items[..i + 1][..i] == items[..i] && clock[..i + 1][..i] == clock[..i];
      }
      assert items[..|items|] == items && clock[..|items|] == clock;
    }

    /** Every key reads as if it had been looked up alone. */
    method Mget(keys: seq<string>, clock: seq<int>) returns (values: seq<Value<T>>)
      requires Valid() && |clock| == |keys| && Later(clock)
      modifies this
      ensures Valid() && View() == TouchAll(old(View()), keys, clock)
      ensures |values| == |keys| && forall i :: 0 <= i < |keys| ==> values[i] == old(View()).Get(keys[i], clock[i])
    {
      values := [];
      for i := 0 to |keys|
        invariant Valid() && View() == TouchAll(old(View()), keys[..i], clock[..i])
        invariant |values| == i && forall j :: 0 <= j < i ==> values[j] == old(View()).Get(keys[j], clock[j])
      {
        TouchAllReads(old(View()), keys[..i], clock[..i], keys[i], clock[i]);
        var value := Get(keys[i], clock[i]);
        values := values + [value];
        assert keys[..i + 1][..i] == keys[..i] && clock[..i + 1][..i] == clock[..i];
      }
      assert keys[..|keys|] == keys && clock[..|keys|] == clock;
    }
  }

  class CacheService<T> {
    const provider: MemoryCacheProvider<T>

    constructor (provider: MemoryCacheProvider<T>)
      ensures this.provider == provider
    {
      this.provider := provider;
    }

    /** A factory that throws stores nothing. */
    method GetOrSet<E>(key: string, factory: () -> Result<Value<T>, E>, ttl: Option<int>, readAt: int, writeAt: int)
      returns (r: Result<Value<T>, E>)
      requires provider.Valid()
      modifies provider
      ensures provider.Valid()
      ensures var hit := old(provider.View()).Get(key, readAt);
              && r == (if hit.Of? then Ok(hit) else factory())
              && provider.View() == if hit.Of? then old(provider.View())
                                    else if factory().Err? then old(provider.View()).Touch(key, readAt)
                                    else old(provider.View()).Touch(key, readAt).Set(key, factory().value, ttl, writeAt)
    {
      var cached := provider.Get(key, readAt);
      if !cached.Null? {
        return Ok(cached);
      }
      r := factory();
      if r.Ok? {
        provider.Set(key, r.value, ttl, writeAt);
      }
    }
  }

  /** What `wrap` returns: a function that goes through the cache. */
  class Wrapped<A(!new), T(!new), E(!new)> {
    const service: CacheService<T>
    const keyFn: A -> string
    const fn: A -> Result<Value<T>, E>
    const ttl: Option<int>

    constructor (service: CacheService<T>, keyFn: A -> string, fn: A -> Result<Value<T>, E>, ttl: Option<int>)
      ensures this.service == service && this.keyFn == keyFn && this.fn == fn && this.ttl == ttl
    {
      this.service, this.keyFn, this.fn, this.ttl := service, keyFn, fn, ttl;
    }

    /** While the cache is faithful to `fn` and keys decide, a call answers as `fn` does and leaves the cache faithful. */
    method Call(arg: A, readAt: int, writeAt: int) returns (r: Result<Value<T>, E>)
      requires service.provider.Valid()
      modifies service.provider
      ensures service.provider.Valid()
      ensures r == Answer(keyFn, fn, old(service.provider.View()), arg, readAt)
      ensures service.provider.View() == CallOn(keyFn, fn, ttl, old(service.provider.View()), arg, readAt, writeAt)
      ensures KeysDecide(keyFn, fn) && Faithful(keyFn, fn, old(service.provider.View())) ==>
                r == fn(arg) && Faithful(keyFn, fn, service.provider.View())
    {
      var key := keyFn(arg);
      r := service.GetOrSet(key, () => fn(arg), ttl, readAt, writeAt);
    }
  }

  /** A call is a lookup, and after a miss what `Act` does to store the result. */
  function CallOn<A, T, E>(keyFn: A -> string, fn: A -> Result<Value<T>, E>, ttl: Option<int>, c: Cache<T>, arg: A, readAt: int, writeAt: int)
    : Cache<T>
  {
    var looked := Act(keyFn, fn, c, Other(LookUp(keyFn(arg), readAt)));
    if c.Get(keyFn(arg), readAt).Null? then Act(keyFn, fn, looked, Store(arg, ttl, writeAt)) else looked
  }

  /** After a miss the function's result is in the cache: for its lifetime the next call is served without running it. */
  lemma {:induction false} CallStores<A, T, E>(keyFn: A -> string, fn: A -> Result<Value<T>, E>, ttl: Option<int>, c: Cache<T>, arg: A,
                                               readAt: int, writeAt: nat, at: int)
    requires c.Valid() && c.Get(keyFn(arg), readAt).Null? && fn(arg).Ok?
    ensures var lifetime := if ttl.Some? then ttl.value else c.defaultTtl;
            CallOn(keyFn, fn, ttl, c, arg, readAt, writeAt).Get(keyFn(arg), at) ==
              if lifetime <= 0 || at - writeAt <= 1000 * lifetime then fn(arg).value else Null
  {
    var looked := c.Touch(keyFn(arg), readAt);
    ApplyValid(c, LookUp(keyFn(arg), readAt));
    SetReads(looked, keyFn(arg), fn(arg).value, ttl, writeAt, keyFn(arg), at);
  }

  /** A hit leaves the cache as it was, and a throw stores nothing under any key. */
  lemma CallLeaves<A, T, E>(keyFn: A -> string, fn: A -> Result<Value<T>, E>, ttl: Option<int>, c: Cache<T>, arg: A,
                            readAt: int, writeAt: int, k: string, at: int)
    requires at >= readAt
    ensures c.Get(keyFn(arg), readAt).Of? ==> CallOn(keyFn, fn, ttl, c, arg, readAt, writeAt) == c
    ensures fn(arg).Err? ==> CallOn(keyFn, fn, ttl, c, arg, readAt, writeAt).Get(k, at) == c.Get(k, at)
  {
    TouchReads(c, keyFn(arg), readAt, k, at);
  }
}
