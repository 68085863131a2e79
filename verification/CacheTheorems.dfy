/** How long entries stay, how large the cache gets, and that wrapping a function does not show. */
module CacheTheorems {
  import opened Prelude
  import opened MemoryCache

  // ------------------------------------------------------------------- validity

  lemma {:induction false} RetainMembers(order: seq<string>, keep: set<string>)
    ensures forall k :: k in Retain(order, keep) <==> k in order && k in keep
    ensures |Retain(order, keep)| <= |order|
  {
    if order != [] {
      RetainMembers(order[1..], keep);
      assert forall k :: k in order <==> k == order[0] || k in order[1..];
    }
  }

  lemma {:induction false} RetainDistinct(order: seq<string>, keep: set<string>)
    requires forall i, j :: 0 <= i < j < |order| ==> order[i] != order[j]
    ensures forall i, j :: 0 <= i < j < |Retain(order, keep)| ==> Retain(order, keep)[i] != Retain(order, keep)[j]
  {
    if order != [] {
      RetainDistinct(order[1..], keep);
      RetainMembers(order[1..], keep);
      assert order[0] !in order[1..];
    }
  }

  lemma KeepValid<T>(c: Cache<T>, keys: set<string>)
    requires c.Valid()
    ensures c.Keep(keys).Valid()
  {
    RetainMembers(c.order, keys);
    RetainDistinct(c.order, keys);
  }

  lemma EvictValid<T>(c: Cache<T>)
    requires c.Valid()
    ensures c.EvictIfNeeded().Valid()
  {
    if c.order != [] {
      KeepValid(c, c.entries.Keys - {c.order[0]});
    }
  }

  lemma PutValid<T>(c: Cache<T>, key: string, entry: Entry<T>)
    requires c.Valid()
    ensures c.Put(key, entry).Valid()
  {
  }

  lemma ApplyValid<T>(c: Cache<T>, op: Op<T>)
    requires c.Valid()
    ensures Apply(c, op).Valid()
  {
    match op
    case SetOp(k, v, ttl, now) =>
      EvictValid(c);
      PutValid(c.EvictIfNeeded(), k, Entry(v, c.Expiry(ttl, now)));
    case LookUp(k, now) => KeepValid(c, c.entries.Keys - {k});
    case DeleteOp(k) => KeepValid(c, c.entries.Keys - {k});
    case ClearOp =>
    case CleanupOp(now) => KeepValid(c, set k | k in c.entries && !c.entries[k].Expired(now));
  }

  // ------------------------------------------------------------------ retention

  /** How many keys were inserted after this one and are still there. */
  function Behind(order: seq<string>, key: string): nat {
    if order == [] then 0
    else if order[0] == key then |order| - 1
    else Behind(order[1..], key)
  }

  lemma {:induction false} RetainBehind(order: seq<string>, keep: set<string>, key: string)
    requires key in order && key in keep
    ensures Behind(Retain(order, keep), key) <= Behind(order, key)
  {
    RetainMembers(order[1..], keep);
    if order[0] == key {
    } else {
      RetainBehind(order[1..], keep, key);
      assert Retain(order, keep)[|Retain(order, keep)| - |Retain(order[1..], keep)|..] == Retain(order[1..], keep);
    }
  }

  lemma {:induction false} AppendBehind(order: seq<string>, last: string, key: string)
    requires key in order
    ensures Behind(order + [last], key) == Behind(order, key) + 1
  {
    if order[0] != key {
      assert (order + [last])[1..] == order[1..] + [last];
      AppendBehind(order[1..], last, key);
    }
  }

  lemma {:induction false} LastBehind(order: seq<string>, key: string)
    requires key !in order
    ensures Behind(order + [key], key) == 0
  {
    if order != [] {
      assert (order + [key])[1..] == order[1..] + [key];
      LastBehind(order[1..], key);
    }
  }

  /** The operation neither deletes the key, nor finds it expired. */
  predicate Spares<T>(c: Cache<T>, op: Op<T>, key: string) {
    match op
    case SetOp(_, _, _, _) => true
    case LookUp(k, now) => k != key || !c.Expires(key, now)
    case DeleteOp(k) => k != key
    case ClearOp => false
    case CleanupOp(now) => !c.Expires(key, now)
  }

  predicate SparesAll<T>(c: Cache<T>, ops: seq<Op<T>>, key: string) {
    forall i :: 0 <= i < |ops| ==> Spares(ApplyAll(c, ops[..i]), ops[i], key)
  }

  function Sets<T>(ops: seq<Op<T>>): nat {
    if ops == [] then 0 else Sets(ops[..|ops| - 1]) + if ops[|ops| - 1].SetOp? then 1 else 0
  }

  /** A set lets at most one more key in behind, and evicts only a key with `maxEntries - 1` behind it. */
  lemma StepRetains<T>(c: Cache<T>, op: Op<T>, key: string)
    requires c.Valid() && key in c.entries && Spares(c, op, key)
    requires op.SetOp? ==> Behind(c.order, key) < c.maxEntries - 1
    ensures Apply(c, op).maxEntries == c.maxEntries
    ensures key in Apply(c, op).entries
    ensures Behind(Apply(c, op).order, key) <= Behind(c.order, key) + if op.SetOp? then 1 else 0
    ensures (op.SetOp? ==> op.key != key) ==> Apply(c, op).entries[key] == c.entries[key]
  {
    match op
    case SetOp(k, v, ttl, now) =>
      assert c.order[0] == key ==> Behind(c.order, key) == |c.order| - 1;
      if c.order[0] != key {
        RetainBehind(c.order, c.entries.Keys - {c.order[0]}, key);
      }
      EvictValid(c);
      var e := c.EvictIfNeeded();
      assert key in e.entries && e.entries[key] == c.entries[key] && Behind(e.order, key) <= Behind(c.order, key);
      if k !in e.entries {
        AppendBehind(e.order, k, key);
      }
    case LookUp(k, now) =>
      if k != key {
        RetainBehind(c.order, c.entries.Keys - {k}, key);
      }
    case DeleteOp(k) => RetainBehind(c.order, c.entries.Keys - {k}, key);
    case ClearOp =>
    case CleanupOp(now) => RetainBehind(c.order, (set k | k in c.entries && !c.entries[k].Expired(now)), key);
  }

  lemma {:induction false} RunRetains<T>(c: Cache<T>, ops: seq<Op<T>>, key: string)
    requires c.Valid() && key in c.entries && SparesAll(c, ops, key)
    requires Behind(c.order, key) + Sets(ops) <= c.maxEntries - 1
    ensures ApplyAll(c, ops).Valid() && ApplyAll(c, ops).maxEntries == c.maxEntries
    ensures key in ApplyAll(c, ops).entries
    ensures Behind(ApplyAll(c, ops).order, key) <= Behind(c.order, key) + Sets(ops)
    ensures (forall i :: 0 <= i < |ops| && ops[i].SetOp? ==> ops[i].key != key) ==> ApplyAll(c, ops).entries[key] == c.entries[key]
  {
    if ops != [] {
      var n := |ops| - 1;
      assert forall i :: 0 <= i < n ==> ops[..n][..i] == ops[..i];
      assert Spares(ApplyAll(c, ops[..n]), ops[n], key);
      RunRetains(c, ops[..n], key);
      StepRetains(ApplyAll(c, ops[..n]), ops[n], key);
      ApplyValid(ApplyAll(c, ops[..n]), ops[n]);
    }
  }

  /**
   A newly inserted key that is not deleted, cleared or expired outlives the next
   `maxEntries - 1` sets of any keys, however mixed with other operations.
   */
  lemma {:induction false} Retention<T>(c: Cache<T>, key: string, value: Value<T>, ttl: Option<int>, now: int, ops: seq<Op<T>>)
    requires c.Valid() && key !in c.entries
    requires var inserted := c.Set(key, value, ttl, now); SparesAll(inserted, ops, key)
    requires Sets(ops) <= c.maxEntries - 1
    ensures key in ApplyAll(c.Set(key, value, ttl, now), ops).entries
  {
    InsertedLast(c, key, value, ttl, now);
    RunRetains(c.Set(key, value, ttl, now), ops, key);
  }

  lemma InsertedLast<T>(c: Cache<T>, key: string, value: Value<T>, ttl: Option<int>, now: int)
    requires c.Valid() && key !in c.entries
    ensures var inserted := c.Set(key, value, ttl, now);
            inserted.Valid() && Behind(inserted.order, key) == 0 && inserted.entries[key] == Entry(value, c.Expiry(ttl, now))
  {
    ApplyValid(c, SetOp(key, value, ttl, now));
    EvictValid(c);
    LastBehind(c.EvictIfNeeded().order, key);
  }

  /** Over that whole time the key reads back what was stored until its lifetime is over, and null after. */
  lemma {:induction false} ReadsBackForItsLifetime<T>(c: Cache<T>, key: string, value: Value<T>, ttl: Option<int>, now: nat, ops: seq<Op<T>>, at: int)
    requires c.Valid() && key !in c.entries
    requires var inserted := c.Set(key, value, ttl, now); SparesAll(inserted, ops, key)
    requires Sets(ops) <= c.maxEntries - 1
    requires forall i :: 0 <= i < |ops| && ops[i].SetOp? ==> ops[i].key != key
    ensures var lifetime := if ttl.Some? then ttl.value else c.defaultTtl;
            ApplyAll(c.Set(key, value, ttl, now), ops).Get(key, at) ==
              if lifetime <= 0 || at - now <= 1000 * lifetime then value else Null
  {
    InsertedLast(c, key, value, ttl, now);
    RunRetains(c.Set(key, value, ttl, now), ops, key);
  }

  /** The bound is tight: with `maxEntries - 1` keys behind it, the next new key pushes the oldest out. */
  lemma OldestGoes<T>(c: Cache<T>, op: Op<T>)
    requires c.Valid() && c.order != [] && c.order[0] != "" && Behind(c.order, c.order[0]) >= c.maxEntries - 1
    requires op.SetOp? && op.key != c.order[0]
    ensures c.order[0] !in Apply(c, op).entries
  {
  }

  // ----------------------------------------------------------------------- size

  predicate Fits<T>(c: Cache<T>) {
    |c.order| <= c.maxEntries
  }

  /** A new key is set on a full cache whose oldest key is the empty string. */
  predicate Overflows<T>(c: Cache<T>, op: Op<T>) {
    op.SetOp? && op.key !in c.entries && |c.order| >= c.maxEntries && c.order != [] && c.order[0] == ""
  }

  /** No operation makes a cache outgrow its bound but that one. */
  lemma StepFits<T>(c: Cache<T>, op: Op<T>)
    requires c.Valid() && c.maxEntries >= 1 && Fits(c)
    ensures Fits(Apply(c, op)) <==> !Overflows(c, op)
    ensures Apply(c, op).maxEntries == c.maxEntries
  {
    match op
    case SetOp(k, v, ttl, now) => SetFits(c, k, v, ttl, now);
    case LookUp(k, now) => RetainMembers(c.order, c.entries.Keys - {k});
    case DeleteOp(k) => RetainMembers(c.order, c.entries.Keys - {k});
    case ClearOp =>
    case CleanupOp(now) => RetainMembers(c.order, (set k | k in c.entries && !c.entries[k].Expired(now)));
  }

  lemma SetFits<T>(c: Cache<T>, key: string, value: Value<T>, ttl: Option<int>, now: int)
    requires c.Valid() && c.maxEntries >= 1 && Fits(c)
    ensures Fits(c.Set(key, value, ttl, now)) <==> !Overflows(c, SetOp(key, value, ttl, now))
  {
    if |c.order| >= c.maxEntries {
      RetainMembers(c.order, c.entries.Keys - {c.order[0]});
      DropsOne(c);
    }
  }

  lemma DropsOne<T>(c: Cache<T>)
    requires c.Valid() && c.order != []
    ensures |Retain(c.order, c.entries.Keys - {c.order[0]})| == |c.order| - 1
  {
    RetainMembers(c.order[1..], c.entries.Keys - {c.order[0]});
    assert Retain(c.order, c.entries.Keys - {c.order[0]}) == Retain(c.order[1..], c.entries.Keys - {c.order[0]});
    RetainAll(c.order[1..], c.entries.Keys - {c.order[0]});
  }

  lemma {:induction false} RetainAll(order: seq<string>, keep: set<string>)
    requires forall k :: k in order ==> k in keep
    ensures Retain(order, keep) == order
  {
    if order != [] {
      RetainAll(order[1..], keep);
    }
  }

  /** Of a full cache: it outgrows its bound exactly when the empty string is its oldest key and the key set is new. */
  lemma OutgrowsExactly<T>(c: Cache<T>, key: string, value: Value<T>, ttl: Option<int>, now: int)
    requires c.Valid() && c.maxEntries >= 1 && |c.order| == c.maxEntries
    ensures |c.Set(key, value, ttl, now).order| > c.maxEntries <==> c.order[0] == "" && key !in c.entries
  {
    SetFits(c, key, value, ttl, now);
  }

  ghost predicate AlwaysFits<T>(c: Cache<T>, ops: seq<Op<T>>) {
    forall i :: 0 <= i <= |ops| ==> Fits(ApplyAll(c, ops[..i]))
  }

  ghost predicate NeverOverflows<T>(c: Cache<T>, ops: seq<Op<T>>) {
    forall i :: 0 <= i < |ops| ==> !Overflows(ApplyAll(c, ops[..i]), ops[i])
  }

  lemma ApplyLast<T>(c: Cache<T>, init: seq<Op<T>>, op: Op<T>)
    ensures ApplyAll(c, init + [op]) == Apply(ApplyAll(c, init), op)
  {
    assert (init + [op])[..|init|] == init;
  }

  lemma FitsLast<T>(c: Cache<T>, init: seq<Op<T>>, op: Op<T>)
    ensures AlwaysFits(c, init + [op]) <==> AlwaysFits(c, init) && Fits(ApplyAll(c, init + [op]))
  {
    var ops := init + [op];
    assert ops[..|ops|] == ops;
    assert forall i :: 0 <= i <= |init| ==> ops[..i] == init[..i];
    if AlwaysFits(c, ops) {
      forall i | 0 <= i <= |init| ensures Fits(ApplyAll(c, init[..i])) {
        assert Fits(ApplyAll(c, ops[..i]));
      }
      assert Fits(ApplyAll(c, ops[..|ops|]));
    }
  }

  lemma OverflowsLast<T>(c: Cache<T>, init: seq<Op<T>>, op: Op<T>)
    ensures NeverOverflows(c, init + [op]) <==> NeverOverflows(c, init) && !Overflows(ApplyAll(c, init), op)
  {
    var ops := init + [op];
    assert ops[..|init|] == init && ops[|init|] == op;
    assert forall i :: 0 <= i < |init| ==> ops[..i] == init[..i] && ops[i] == init[i];
    if NeverOverflows(c, ops) {
      forall i | 0 <= i < |init| ensures !Overflows(ApplyAll(c, init[..i]), init[i]) {
        assert !Overflows(ApplyAll(c, ops[..i]), ops[i]);
      }
      assert !Overflows(ApplyAll(c, ops[..|init|]), ops[|init|]);
    }
  }

  lemma {:induction false} RunKeepsMax<T>(c: Cache<T>, ops: seq<Op<T>>)
    requires c.Valid()
    ensures ApplyAll(c, ops).Valid() && ApplyAll(c, ops).maxEntries == c.maxEntries
  {
    if ops != [] {
      var init, op := ops[..|ops| - 1], ops[|ops| - 1];
      RunKeepsMax(c, init);
      ApplyValid(ApplyAll(c, init), op);
      StepKeepsMax(ApplyAll(c, init), op);
    }
  }

  lemma {:induction false} RunFits<T>(c: Cache<T>, ops: seq<Op<T>>)
    requires c.Valid() && c.maxEntries >= 1 && Fits(c)
    ensures AlwaysFits(c, ops) <==> NeverOverflows(c, ops)
  {
    if ops == [] {
      assert ops[..0] == [];
    } else {
      var init, op := ops[..|ops| - 1], ops[|ops| - 1];
      assert ops == init + [op];
      RunFits(c, init);
      RunKeepsMax(c, init);
      ApplyLast(c, init, op);
      FitsLast(c, init, op);
      OverflowsLast(c, init, op);
      if AlwaysFits(c, init) {
        FitsAtEnd(c, init);
        StepFits(ApplyAll(c, init), op);
      }
    }
  }

  lemma FitsAtEnd<T>(c: Cache<T>, ops: seq<Op<T>>)
    requires AlwaysFits(c, ops)
    ensures Fits(ApplyAll(c, ops))
  {
    assert ops[..|ops|] == ops;
  }

  lemma StepKeepsMax<T>(c: Cache<T>, op: Op<T>)
    ensures Apply(c, op).maxEntries == c.maxEntries
  {
  }

  /**
   A cache holds at most `maxEntries` entries at every time of a run from its
   construction, if and only if that bound is positive and no new key was ever set
   while the cache was full with the empty string as its oldest key.
   */
  lemma {:induction false} SizeTheorem<T>(max: Option<int>, defaultTtl: Option<int>, ops: seq<Op<T>>)
    ensures var c := Fresh<T>(max, defaultTtl);
            AlwaysFits(c, ops) <==> c.maxEntries >= 1 && NeverOverflows(c, ops)
  {
    var c := Fresh<T>(max, defaultTtl);
    if c.maxEntries >= 1 {
      RunFits(c, ops);
    } else {
      assert ops[..0] == [] && !Fits(ApplyAll(c, ops[..0]));
    }
  }

  lemma {:induction false} NeverEmptyKey<T>(c: Cache<T>, ops: seq<Op<T>>)
    requires "" !in c.order && forall i :: 0 <= i < |ops| && ops[i].SetOp? ==> ops[i].key != ""
    ensures "" !in ApplyAll(c, ops).order
  {
    if ops != [] {
      var n := |ops| - 1;
      NeverEmptyKey(c, ops[..n]);
      StepEmptyKey(ApplyAll(c, ops[..n]), ops[n]);
    }
  }

  lemma StepEmptyKey<T>(c: Cache<T>, op: Op<T>)
    requires "" !in c.order && (op.SetOp? ==> op.key != "")
    ensures "" !in Apply(c, op).order
  {
    match op
    case SetOp(k, v, ttl, now) => if c.order != [] { RetainMembers(c.order, c.entries.Keys - {c.order[0]}); }
    case LookUp(k, now) => RetainMembers(c.order, c.entries.Keys - {k});
    case DeleteOp(k) => RetainMembers(c.order, c.entries.Keys - {k});
    case ClearOp =>
    case CleanupOp(now) => RetainMembers(c.order, (set k | k in c.entries && !c.entries[k].Expired(now)));
  }

  predicate Bounded<T>(c: Cache<T>) {
    Fits(c) && "" !in c.order
  }

  /** In particular with non-empty keys the cache never outgrows `maxEntries`. */
  lemma {:induction false} SizeBounded<T>(max: Option<int>, defaultTtl: Option<int>, ops: seq<Op<T>>)
    requires max.Some? ==> max.value >= 0
    requires forall i :: 0 <= i < |ops| && ops[i].SetOp? ==> ops[i].key != ""
    ensures var c := ApplyAll(Fresh(max, defaultTtl), ops);
            c.Valid() && Bounded(c) && c.maxEntries == Fresh<T>(max, defaultTtl).maxEntries >= 1
  {
    var c := Fresh<T>(max, defaultTtl);
    forall i | 0 <= i <= |ops| ensures "" !in ApplyAll(c, ops[..i]).order {
      NeverEmptyKey(c, ops[..i]);
    }
    RunKeepsMax(c, ops);
    SizeTheorem(max, defaultTtl, ops);
    assert ops[..|ops|] == ops;
  }

  /** The bound and the lifetime of the options, 1000 entries and 300 seconds where they are absent or zero, hold in every run. */
  lemma {:induction false} OptionsHold<T>(max: Option<int>, defaultTtl: Option<int>, ops: seq<Op<T>>, key: string, value: Value<T>, now: nat, at: int)
    requires max.Some? ==> max.value >= 0
    requires forall i :: 0 <= i < |ops| && ops[i].SetOp? ==> ops[i].key != ""
    ensures var c := ApplyAll(Fresh<T>(max, defaultTtl), ops);
            var bound := if max.Some? && max.value > 0 then max.value else 1000;
            var lifetime := if defaultTtl.Some? && defaultTtl.value != 0 then defaultTtl.value else 300;
            && |c.order| <= c.maxEntries == bound
            && c.Set(key, value, None, now).Get(key, at) == if lifetime < 0 || at - now <= 1000 * lifetime then value else Null
  {
    SizeBounded<T>(max, defaultTtl, ops);
    RunKeepsTtl(Fresh<T>(max, defaultTtl), ops);
    SetReads(ApplyAll(Fresh<T>(max, defaultTtl), ops), key, value, None, now, key, at);
  }

  lemma {:induction false} RunKeepsTtl<T>(c: Cache<T>, ops: seq<Op<T>>)
    ensures ApplyAll(c, ops).defaultTtl == c.defaultTtl
  {
    if ops != [] {
      RunKeepsTtl(c, ops[..|ops| - 1]);
    }
  }

  // ------------------------------------------------------------------- no bound at all

  function Name(n: nat): string {
    if n == 0 then "" else Name(n - 1) + "x"
  }

  lemma {:induction false} NamesDiffer(n: nat)
    ensures |Name(n)| == n
  {
    if n > 0 {
      NamesDiffer(n - 1);
    }
  }

  /** The empty string, then `n - 1` other keys, each set once. */
  function Fill<T>(n: nat, value: Value<T>): seq<Op<T>> {
    if n == 0 then [] else Fill(n - 1, value) + [SetOp(Name(n - 1), value, None, 0)]
  }

  function Names(n: nat): seq<string> {
    if n == 0 then [] else Names(n - 1) + [Name(n - 1)]
  }

  lemma {:induction false} NamesBelow(n: nat, k: string)
    requires k in Names(n)
    ensures |k| < n
  {
    NamesDiffer(n - 1);
    if k in Names(n - 1) {
      NamesBelow(n - 1, k);
    }
  }

  lemma NameIsNew(n: nat)
    ensures Name(n) !in Names(n)
  {
    NamesDiffer(n);
    if Name(n) in Names(n) {
      NamesBelow(n, Name(n));
    }
  }

  /** The cache holds the first `n` names, in order. */
  ghost predicate Holds<T>(c: Cache<T>, n: nat) {
    c.Valid() && c.order == Names(n)
  }

  /** The next key is new, and nothing makes room for it. */
  lemma GrowsByOne<T>(c: Cache<T>, n: nat, op: Op<T>)
    requires n > 0 && Holds(c, n - 1) && op.SetOp? && op.key == Name(n - 1)
    ensures Holds(Apply(c, op), n)
  {
    NameIsNew(n - 1);
    if n > 1 {
      NamesStartEmpty(n - 1);
    }
    assert c.EvictIfNeeded() == c;
    ApplyValid(c, op);
  }

  lemma FillLast<T>(c: Cache<T>, n: nat, value: Value<T>)
    requires n > 0
    ensures ApplyAll(c, Fill(n, value)) == Apply(ApplyAll(c, Fill(n - 1, value)), SetOp(Name(n - 1), value, None, 0))
  {
    ApplyLast(c, Fill(n - 1, value), SetOp(Name(n - 1), value, None, 0));
  }

  lemma {:induction false} FillGrows<T>(c: Cache<T>, n: nat, value: Value<T>)
    requires Holds(c, 0)
    ensures Holds(ApplyAll(c, Fill(n, value)), n)
  {
    if n > 0 {
      var before, op := ApplyAll(c, Fill(n - 1, value)), SetOp(Name(n - 1), value, None, 0);
      FillGrows(c, n - 1, value);
      GrowsByOne(before, n, op);
      FillLast(c, n, value);
      assert ApplyAll(c, Fill(n, value)) == Apply(before, op);
    }
  }

  lemma {:induction false} NamesCount(n: nat)
    ensures |Names(n)| == n
  {
    if n > 0 {
      NamesCount(n - 1);
    }
  }

  /** Once the empty string is the oldest key nothing is evicted again: whatever its bound, the cache takes any number of keys. */
  lemma {:induction false} GrowsWithoutBound<T>(max: Option<int>, defaultTtl: Option<int>, n: nat, value: Value<T>)
    ensures var c := ApplyAll(Fresh(max, defaultTtl), Fill(n, value));
            c.Valid() && c.order == Names(n) && |c.order| == n
  {
    FillGrows(Fresh(max, defaultTtl), n, value);
    NamesCount(n);
  }

  lemma {:induction false} NamesStartEmpty(n: nat)
    requires n > 0
    ensures Names(n) != [] && Names(n)[0] == ""
  {
    if n > 1 {
      NamesStartEmpty(n - 1);
    }
  }

  // ------------------------------------------------------- what one operation does

  /** The oldest key gives way to a set on a full cache, unless it is the empty string. */
  predicate GivesWay<T>(c: Cache<T>, k: string) {
    k != "" && c.order != [] && k == c.order[0] && |c.order| >= c.maxEntries
  }

  /** A set can be read back for its lifetime, whether or not the key was there; other keys read as before, but for the one that gives way. */
  lemma {:induction false} SetReads<T>(c: Cache<T>, key: string, value: Value<T>, ttl: Option<int>, now: int, k: string, at: int)
    requires c.Valid()
    ensures var lifetime := if ttl.Some? then ttl.value else c.defaultTtl;
            c.Set(key, value, ttl, now).Get(key, at) ==
              if lifetime <= 0 || now + 1000 * lifetime == 0 || at - now <= 1000 * lifetime then value else Null
    ensures k != key ==> c.Set(key, value, ttl, now).Get(k, at) == if GivesWay(c, k) then Null else c.Get(k, at)
  {
  }

  /** Removing the oldest key leaves the others in their order. */
  lemma WithoutOldest<T>(c: Cache<T>)
    requires c.Valid() && c.order != []
    ensures c.Delete(c.order[0]).order == c.order[1..]
  {
    var keep := c.entries.Keys - {c.order[0]};
    RetainMembers(c.order[1..], keep);
    assert Retain(c.order, keep) == Retain(c.order[1..], keep);
    RetainAll(c.order[1..], keep);
  }

  /** The order stays that of first insertion: a set moves a key to the end only when it is new or just gave way itself. */
  lemma SetOrder<T>(c: Cache<T>, key: string, value: Value<T>, ttl: Option<int>, now: int)
    requires c.Valid()
    ensures var rest := if c.order != [] && GivesWay(c, c.order[0]) then c.order[1..] else c.order;
            c.Set(key, value, ttl, now).order == if key in rest then rest else rest + [key]
  {
    if c.order != [] {
      WithoutOldest(c);
    }
  }

  /** The keys kept stay in their order, those dropped are gone. */
  lemma {:induction false} RetainOrder(order: seq<string>, keep: set<string>, a: string, b: string)
    requires Distinct(order) && a in order && b in order && a in keep && b in keep
    ensures Behind(Retain(order, keep), a) < Behind(Retain(order, keep), b) <==> Behind(order, a) < Behind(order, b)
  {
    RetainMembers(order[1..], keep);
    var rest := Retain(order[1..], keep);
    if order[0] != a && order[0] != b {
      RetainOrder(order[1..], keep, a, b);
      assert Retain(order, keep) == if order[0] in keep then [order[0]] + rest else rest;
      assert order[0] in keep ==> Retain(order, keep)[1..] == rest;
    } else if a != b {
      BehindIsBelow(order[1..], if order[0] == a then b else a);
      BehindIsBelow(rest, if order[0] == a then b else a);
      assert Retain(order, keep)[1..] == rest;
    }
  }

  lemma {:induction false} BehindIsBelow(order: seq<string>, key: string)
    requires key in order
    ensures Behind(order, key) < |order|
  {
    if order[0] != key {
      BehindIsBelow(order[1..], key);
    }
  }

  /** Clean-up drops only what no later call can see, and all of it; the rest keeps its order. */
  lemma {:induction false} CleanupIsInvisible<T>(c: Cache<T>, now: int, k: string, at: int)
    requires c.Valid() && at >= now
    ensures c.Cleanup(now).Get(k, at) == c.Get(k, at) && c.Cleanup(now).Exists(k, at) == c.Exists(k, at)
    ensures k in c.Cleanup(now).order <==> c.Exists(k, now)
  {
    RetainMembers(c.order, (set key | key in c.entries && !c.entries[key].Expired(now)));
  }

  /** Looking a key up drops only what no later call can see. */
  lemma {:induction false} TouchIsInvisible<T>(c: Cache<T>, key: string, now: int, k: string, at: int)
    requires c.Valid() && at >= now
    ensures c.Touch(key, now).Get(k, at) == c.Get(k, at) && c.Touch(key, now).Exists(k, at) == c.Exists(k, at)
    ensures key in c.Touch(key, now).order <==> c.Exists(key, now)
  {
    RetainMembers(c.order, c.entries.Keys - {key});
  }

  /** A deleted key is gone, and no other. */
  lemma {:induction false} DeleteReads<T>(c: Cache<T>, key: string, k: string, at: int)
    requires c.Valid()
    ensures c.Delete(key).Get(k, at) == if k == key then Null else c.Get(k, at)
    ensures k in c.Delete(key).order <==> k != key && k in c.order
  {
    RetainMembers(c.order, c.entries.Keys - {key});
  }

  lemma {:induction false} ClearReads<T>(c: Cache<T>, k: string, at: int)
    ensures c.Clear().Get(k, at) == Null && !c.Clear().Exists(k, at) && c.Clear().order == []
  {
  }

  /** What is read is there; what is there and reads as null was stored as null. */
  lemma {:induction false} ExistsIff<T>(c: Cache<T>, key: string, at: int)
    ensures c.Get(key, at) != Null ==> c.Exists(key, at)
    ensures c.Exists(key, at) && c.Get(key, at) == Null ==> c.entries[key].value == Null
  {
  }

  // ------------------------------------------------------------------- wrapping

  /** What goes on around a wrapped function: its calls store, everything else is anything else. */
  datatype Action<A, T> =
    | Store(arg: A, ttl: Option<int>, now: int)
    | Other(op: Op<T>)

  /** `fn` under `keyFn`: the second half of a call that missed stores what `fn` returned, unless it threw. */
  function Act<A, T, E>(keyFn: A -> string, fn: A -> Result<Value<T>, E>, c: Cache<T>, action: Action<A, T>): Cache<T> {
    match action
    case Store(arg, ttl, now) => if fn(arg).Ok? then c.Set(keyFn(arg), fn(arg).value, ttl, now) else c
    case Other(op) => Apply(c, op)
  }

  function ActAll<A, T, E>(keyFn: A -> string, fn: A -> Result<Value<T>, E>, c: Cache<T>, actions: seq<Action<A, T>>): Cache<T> {
    if actions == [] then c
    else Act(keyFn, fn, ActAll(keyFn, fn, c, actions[..|actions| - 1]), actions[|actions| - 1])
  }

  /** What a wrapped call answers: the cached value unless it is null, else what `fn` does. */
  function Answer<A, T, E>(keyFn: A -> string, fn: A -> Result<Value<T>, E>, c: Cache<T>, arg: A, now: int): Result<Value<T>, E> {
    var cached := c.Get(keyFn(arg), now);
    if cached != Null then Ok(cached) else fn(arg)
  }

  /** No one else writes a key of the wrapped function. */
  ghost predicate Private<A(!new), T>(keyFn: A -> string, actions: seq<Action<A, T>>) {
    forall i, a :: 0 <= i < |actions| && actions[i].Other? && actions[i].op.SetOp? ==> actions[i].op.key != keyFn(a)
  }

  /** A result that a later call is served from the cache; null and errors are not. */
  predicate Served<T, E>(result: Result<Value<T>, E>) {
    result.Ok? && result.value.Of?
  }

  /** Equal keys mean equal results, as soon as one of them can be served from the cache. */
  ghost predicate KeysDecide<A(!new), T(!new), E(!new)>(keyFn: A -> string, fn: A -> Result<Value<T>, E>) {
    forall a, b :: keyFn(a) == keyFn(b) && Served(fn(a)) ==> fn(a) == fn(b)
  }

  ghost predicate Faithful<A(!new), T(!new), E(!new)>(keyFn: A -> string, fn: A -> Result<Value<T>, E>, c: Cache<T>) {
    forall a :: keyFn(a) in c.entries && c.entries[keyFn(a)].value.Of? ==> fn(a) == Ok(c.entries[keyFn(a)].value)
  }

  lemma {:induction false} RunFaithful<A(!new), T(!new), E(!new)>(keyFn: A -> string, fn: A -> Result<Value<T>, E>, c: Cache<T>,
                                                                  actions: seq<Action<A, T>>)
    requires KeysDecide(keyFn, fn) && Private(keyFn, actions) && c.entries == map[]
    ensures Faithful(keyFn, fn, ActAll(keyFn, fn, c, actions))
  {
    if actions != [] {
      var n := |actions| - 1;
      RunFaithful(keyFn, fn, c, actions[..n]);
      ActFaithful(keyFn, fn, ActAll(keyFn, fn, c, actions[..n]), actions[n]);
    }
  }

  lemma ActFaithful<A(!new), T(!new), E(!new)>(keyFn: A -> string, fn: A -> Result<Value<T>, E>, c: Cache<T>, action: Action<A, T>)
    requires KeysDecide(keyFn, fn) && Faithful(keyFn, fn, c) && Private(keyFn, [action])
    ensures Faithful(keyFn, fn, Act(keyFn, fn, c, action))
  {
    assert [action][0] == action;
  }

  /** Nothing that ever happens to the cache lets a caller tell the wrapped function from `fn`. */
  ghost predicate Transparent<A(!new), T(!new), E(!new)>(keyFn: A -> string, fn: A -> Result<Value<T>, E>, c: Cache<T>) {
    forall actions, arg, now :: Private(keyFn, actions) ==> Answer(keyFn, fn, ActAll(keyFn, fn, c, actions), arg, now) == fn(arg)
  }

  /**
   The wrapper is indistinguishable from the function, which may also return null
   or throw, if and only if equal keys mean equal results where one can be served.
   */
  lemma WrapIsTransparentIff<A(!new), T(!new), E(!new)>(keyFn: A -> string, fn: A -> Result<Value<T>, E>, c: Cache<T>)
    requires c.entries == map[] && c.order == []
    ensures Transparent(keyFn, fn, c) <==> KeysDecide(keyFn, fn)
  {
    if KeysDecide(keyFn, fn) {
      forall actions, arg, now | Private(keyFn, actions)
        ensures Answer(keyFn, fn, ActAll(keyFn, fn, c, actions), arg, now) == fn(arg)
      {
        RunFaithful(keyFn, fn, c, actions);
      }
    } else {
      var a, b :| keyFn(a) == keyFn(b) && Served(fn(a)) && fn(a) != fn(b);
      Tells(keyFn, fn, c, a, b);
    }
  }

  lemma Tells<A(!new), T(!new), E(!new)>(keyFn: A -> string, fn: A -> Result<Value<T>, E>, c: Cache<T>, a: A, b: A)
    requires c.entries == map[] && c.order == [] && keyFn(a) == keyFn(b) && fn(a) != fn(b) && Served(fn(a))
    ensures !Transparent(keyFn, fn, c)
  {
    var actions: seq<Action<A, T>> := [Store(a, None, 0)];
    assert actions[..0] == [];
    assert ActAll(keyFn, fn, c, actions) == c.Set(keyFn(a), fn(a).value, None, 0);
    assert Private(keyFn, actions);
    assert Answer(keyFn, fn, ActAll(keyFn, fn, c, actions), b, 0) == fn(a);
  }
}
