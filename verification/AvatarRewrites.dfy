/**
 One stored avatar URL as the migrated keys are visited in turn: a value that
 ends with `/key` is replaced by that key's new URL. All avatar keys share a
 bucket, so every new URL is one base, a slash and the key.
 */
module AvatarRewrites {
  import opened Prelude
  import opened StorageKeys

  function Url(base: string, key: string): string {
    base + "/" + key
  }

  predicate Hits(value: string, key: string) {
    EndsWith(value, "/" + key)
  }

  predicate Moves(base: string, value: string, key: string) {
    Hits(value, key) && value != Url(base, key)
  }

  function Turn(base: string, value: string, key: string): string {
    if Moves(base, value, key) then Url(base, key) else value
  }

  /** The value after all turns, in order. */
  function Fold(base: string, keys: seq<string>, value: string): string {
    if keys == [] then value
    else Turn(base, Fold(base, keys[..|keys| - 1], value), keys[|keys| - 1])
  }

  /** `inner` is a trailing run of whole segments of `outer`. */
  predicate Tail(inner: string, outer: string) {
    Hits("/" + outer, inner)
  }

  lemma UrlHitsItself(base: string, key: string)
    ensures Hits(Url(base, key), key)
  {
    assert Url(base, key) == base + ("/" + key);
    assert (base + ("/" + key))[|base|..] == "/" + key;
  }

  /** Of two keys that hit one value, the shorter is a tail of the longer. */
  lemma Comparable(value: string, inner: string, outer: string)
    requires Hits(value, inner) && Hits(value, outer) && |inner| <= |outer|
    ensures Tail(inner, outer) && (|inner| == |outer| ==> inner == outer)
  {
    var n := |value|;
    assert ("/" + outer)[|outer| - |inner|..] == value[n - |outer| - 1..][|outer| - |inner|..] == value[n - |inner| - 1..];
    assert ("/" + inner)[1..] == inner && ("/" + outer)[1..] == outer;
  }

  lemma UrlsDiffer(base: string, key: string, other: string)
    requires key != other
    ensures Url(base, key) != Url(base, other)
  {
    assert Url(base, key)[|base| + 1..] == key && Url(base, other)[|base| + 1..] == other;
  }

  lemma TailHits(value: string, inner: string, outer: string)
    requires Tail(inner, outer) && Hits(value, outer)
    ensures Hits(value, inner)
  {
    var n := |value|;
    assert value[n - |outer| - 1..][|outer| - |inner|..] == value[n - |inner| - 1..];
  }

  // -------------------------------------------------- the shortest hit decides

  ghost predicate IsShortest(keys: seq<string>, value: string, key: string) {
    key in keys && Hits(value, key) && forall k :: k in keys && Hits(value, k) ==> |key| <= |k|
  }

  ghost predicate NoHit(keys: seq<string>, value: string) {
    forall k :: k in keys ==> !Hits(value, k)
  }

  lemma {:induction false} ShortestExists(keys: seq<string>, value: string) returns (key: string)
    requires !NoHit(keys, value)
    ensures IsShortest(keys, value, key)
  {
    var init, last := keys[..|keys| - 1], keys[|keys| - 1];
    assert forall k :: k in keys <==> k in init || k == last;
    if NoHit(init, value) {
      key := last;
    } else {
      key := ShortestExists(init, value);
      if Hits(value, last) && |last| < |key| {
        key := last;
      }
    }
  }

  /** A turn never changes which key is the shortest hit. */
  lemma TurnKeepsShortest(base: string, keys: seq<string>, value: string, key: string, shortest: string)
    requires IsShortest(keys, value, shortest) && key in keys
    ensures IsShortest(keys, Turn(base, value, key), shortest)
  {
    if Moves(base, value, key) {
      var moved := Url(base, key);
      UrlHitsItself(base, key);
      Comparable(value, shortest, key);
      TailHits(moved, shortest, key);
      forall k | k in keys && Hits(moved, k) ensures |shortest| <= |k| {
        if |k| <= |key| {
          Comparable(moved, k, key);
          TailHits(value, k, key);
        }
      }
    }
  }

  lemma {:induction false} FoldKeepsShortest(base: string, all: seq<string>, keys: seq<string>, value: string, shortest: string)
    requires IsShortest(all, value, shortest) && forall k :: k in keys ==> k in all
    ensures IsShortest(all, Fold(base, keys, value), shortest)
  {
    if keys != [] {
      var init := keys[..|keys| - 1];
      FoldKeepsShortest(base, all, init, value, shortest);
      TurnKeepsShortest(base, all, Fold(base, init, value), keys[|keys| - 1], shortest);
    }
  }

  lemma {:induction false} FoldKeepsNoHit(base: string, keys: seq<string>, value: string)
    requires NoHit(keys, value)
    ensures Fold(base, keys, value) == value
  {
    if keys != [] {
      FoldKeepsNoHit(base, keys[..|keys| - 1], value);
    }
  }

  /** Two values with the same shortest hit end up equal: its turn makes them so. */
  lemma {:induction false} FoldForgets(base: string, all: seq<string>, keys: seq<string>, v: string, w: string, shortest: string)
    requires IsShortest(all, v, shortest) && IsShortest(all, w, shortest)
    requires forall k :: k in keys ==> k in all
    ensures shortest in keys ==> Fold(base, keys, v) == Fold(base, keys, w)
  {
    if keys != [] {
      var init := keys[..|keys| - 1];
      FoldForgets(base, all, init, v, w, shortest);
      FoldKeepsShortest(base, all, init, v, shortest);
      FoldKeepsShortest(base, all, init, w, shortest);
    }
  }

  // ---------------------------------------------------------- what a pass leaves alone

  lemma {:induction false} FoldLands(base: string, keys: seq<string>, value: string)
    requires !NoHit(keys, value) && forall k :: k in keys ==> value != Url(base, k)
    ensures exists k :: k in keys && Fold(base, keys, value) == Url(base, k)
  {
    var init, last := keys[..|keys| - 1], keys[|keys| - 1];
    assert forall k :: k in keys <==> k in init || k == last;
    if NoHit(init, value) {
      FoldKeepsNoHit(base, init, value);
    } else {
      FoldLands(base, init, value);
    }
  }

  /** A value that is no key's URL is left alone if and only if it ends in no key. */
  lemma LeftAloneIffNoHit(base: string, keys: seq<string>, value: string)
    requires forall k :: k in keys ==> value != Url(base, k)
    ensures Fold(base, keys, value) == value <==> NoHit(keys, value)
  {
    if NoHit(keys, value) {
      FoldKeepsNoHit(base, keys, value);
    } else {
      FoldLands(base, keys, value);
    }
  }

  // ---------------------------------------------------- when a second pass is idle

  /** No other key is a tail of it. */
  predicate Minimal(keys: seq<string>, key: string) {
    forall k :: k in keys && Tail(k, key) ==> k == key
  }

  /** The new URL of a minimal key is hit by no other key. */
  predicate Settled(base: string, keys: seq<string>) {
    forall key, k :: key in keys && k in keys && Minimal(keys, key) && Hits(Url(base, key), k) ==> k == key
  }

  predicate Idle(base: string, keys: seq<string>, value: string) {
    forall k :: k in keys ==> !Moves(base, value, k)
  }

  lemma ShortestIsMinimal(keys: seq<string>, value: string, key: string)
    requires IsShortest(keys, value, key)
    ensures Minimal(keys, key)
  {
    forall k | k in keys && Tail(k, key) ensures k == key {
      TailHits(value, k, key);
      Comparable(value, key, k);
    }
  }

  lemma {:induction false} FoldReaches(base: string, all: seq<string>, keys: seq<string>, value: string, shortest: string)
    requires Settled(base, all) && IsShortest(all, value, shortest)
    requires forall k :: k in keys ==> k in all
    ensures shortest in keys ==> Fold(base, keys, value) == Url(base, shortest)
  {
    if keys != [] {
      var init := keys[..|keys| - 1];
      FoldReaches(base, all, init, value, shortest);
      FoldKeepsShortest(base, all, init, value, shortest);
      ShortestIsMinimal(all, value, shortest);
    }
  }

  /** After one pass, a second one moves the value no more. */
  predicate IdleAfter(base: string, keys: seq<string>, value: string) {
    Idle(base, keys, Fold(base, keys, value))
  }

  /** A second pass over any stored value is idle if and only if the keys are settled. */
  lemma IdleIffSettled(base: string, keys: seq<string>)
    ensures (forall v :: IdleAfter(base, keys, v)) <==> Settled(base, keys)
  {
    if Settled(base, keys) {
      forall v ensures IdleAfter(base, keys, v) {
        if NoHit(keys, v) {
          FoldKeepsNoHit(base, keys, v);
        } else {
          var shortest := ShortestExists(keys, v);
          FoldReaches(base, keys, keys, v, shortest);
          ShortestIsMinimal(keys, v, shortest);
        }
      }
    } else {
      var key, k :| key in keys && k in keys && Minimal(keys, key) && Hits(Url(base, key), k) && k != key;
      NeverIdle(base, keys, key, k);
      assert !IdleAfter(base, keys, Url(base, key));
    }
  }

  lemma NeverIdle(base: string, keys: seq<string>, key: string, other: string)
    requires key in keys && Minimal(keys, key) && other in keys && Hits(Url(base, key), other) && other != key
    ensures !Idle(base, keys, Fold(base, keys, Url(base, key)))
  {
    var url := Url(base, key);
    UrlHitsItself(base, key);
    forall k | k in keys && Hits(url, k) ensures |key| <= |k| {
      if |k| < |key| {
        Comparable(url, k, key);
      }
    }
    FoldKeepsShortest(base, keys, keys, url, key);
    var last := Fold(base, keys, url);
    if last == url {
      assert Url(base, other)[|base| + 1..] == other && url[|base| + 1..] == key;
      assert Moves(base, last, other);
    } else {
      assert Moves(base, last, key);
    }
  }

  /** Keys of which none is a tail of another are settled, whatever the base. */
  lemma DisjointKeysSettle(base: string, keys: seq<string>)
    requires forall k, l :: k in keys && l in keys && Tail(k, l) ==> k == l
    ensures Settled(base, keys)
  {
    forall key, k | key in keys && k in keys && Minimal(keys, key) && Hits(Url(base, key), k) ensures k == key {
      UrlHitsItself(base, key);
      if |k| <= |key| {
        Comparable(Url(base, key), k, key);
      } else {
        Comparable(Url(base, key), key, k);
      }
    }
  }

  // ---------------------------------------------------- when a dry run predicts

  /** For every stored value, each key would move it as it stands just when the real run moves it. */
  ghost predicate Predicts(base: string, keys: seq<string>) {
    forall v, j :: 0 <= j < |keys| ==>
      (Moves(base, v, keys[j]) <==> Moves(base, Fold(base, keys[..j], v), keys[j]))
  }

  /** No key hits the new URL of a later one. */
  predicate Ordered(base: string, keys: seq<string>) {
    forall i, j :: 0 <= i < j < |keys| ==> !Hits(Url(base, keys[j]), keys[i])
  }

  /** When ordered, a moved value is the URL of a key that hit the value to begin with. */
  lemma {:induction false} FoldOrigin(base: string, keys: seq<string>, v: string) returns (m: nat)
    requires Ordered(base, keys) && Fold(base, keys, v) != v
    ensures m < |keys| && Fold(base, keys, v) == Url(base, keys[m]) && Hits(v, keys[m])
  {
    var n := |keys| - 1;
    var before, k := Fold(base, keys[..n], v), keys[n];
    if !Moves(base, before, k) {
      m := FoldOrigin(base, keys[..n], v);
    } else {
      m := n;
      if before != v {
        var l := FoldOrigin(base, keys[..n], v);
        KeysAgree(base, v, keys[l], k);
      }
    }
  }

  /** Once moved to `earlier`, the value is hit by a later key just as it was before. */
  lemma KeysAgree(base: string, v: string, earlier: string, later: string)
    requires Hits(v, earlier) && !Hits(Url(base, later), earlier)
    ensures Hits(v, later) <==> Hits(Url(base, earlier), later)
    ensures Hits(v, later) ==> v != Url(base, later) && Url(base, earlier) != Url(base, later)
  {
    UrlHitsItself(base, earlier);
    UrlHitsItself(base, later);
    if Hits(v, later) {
      if |earlier| <= |later| {
        Comparable(v, earlier, later);
        TailHits(Url(base, later), earlier, later);
      } else {
        Comparable(v, later, earlier);
        TailHits(Url(base, earlier), later, earlier);
      }
    }
    if Hits(Url(base, earlier), later) {
      if |earlier| <= |later| {
        Comparable(Url(base, earlier), earlier, later);
        TailHits(Url(base, later), earlier, later);
      } else {
        Comparable(Url(base, earlier), later, earlier);
        TailHits(v, later, earlier);
      }
    }
  }

  /** When no key hits a later key's URL, a dry run is right about every turn of every stored value. */
  lemma OrderedPredicts(base: string, keys: seq<string>)
    requires Ordered(base, keys)
    ensures Predicts(base, keys)
  {
    forall v, j | 0 <= j < |keys|
      ensures Moves(base, v, keys[j]) <==> Moves(base, Fold(base, keys[..j], v), keys[j])
    {
      if Fold(base, keys[..j], v) != v {
        var m := FoldOrigin(base, keys[..j], v);
        KeysAgree(base, v, keys[m], keys[j]);
      }
    }
  }

  /** How often the keys move the value: as it becomes (live), or as it stands (a dry run). */
  function Turns(base: string, keys: seq<string>, value: string, live: bool): nat {
    if keys == [] then 0
    else
      var n := |keys| - 1;
      Turns(base, keys[..n], value, live)
      + if Moves(base, if live then Fold(base, keys[..n], value) else value, keys[n]) then 1 else 0
  }

  /** Two values hit by the same keys, the first the URL of one of them and the second of none. */
  ghost predicate Twins(base: string, keys: seq<string>, url: string, twin: string, key: string) {
    && url == Url(base, key)
    && forall k :: k in keys ==> (Hits(twin, k) <==> Hits(url, k)) && twin != Url(base, k)
  }

  /** A dry run counts one turn fewer for the first. */
  lemma {:induction false} TwinsDry(base: string, keys: seq<string>, url: string, twin: string, key: string)
    requires Twins(base, keys, url, twin, key) && Distinct(keys)
    ensures Turns(base, keys, twin, false) == Turns(base, keys, url, false) + if key in keys then 1 else 0
  {
    if keys != [] {
      var n := |keys| - 1;
      TwinsDry(base, keys[..n], url, twin, key);
      UrlHitsItself(base, key);
      if keys[n] != key {
        UrlsDiffer(base, keys[n], key);
      }
      assert key in keys <==> key in keys[..n] || key == keys[n];
    }
  }

  /** The real run makes the same turns for both, if another key hits them first. */
  lemma {:induction false} TwinsLive(base: string, keys: seq<string>, url: string, twin: string, key: string)
    requires Twins(base, keys, url, twin, key)
    requires forall j :: 0 <= j < |keys| && keys[j] == key ==> !NoHit(keys[..j], url)
    ensures Turns(base, keys, twin, true) == Turns(base, keys, url, true)
    ensures NoHit(keys, url) || Fold(base, keys, twin) == Fold(base, keys, url)
  {
    if keys != [] {
      var n := |keys| - 1;
      forall j | 0 <= j < n && keys[..n][j] == key ensures !NoHit(keys[..n][..j], url) {
        assert keys[..n][..j] == keys[..j];
      }
      TwinsLive(base, keys[..n], url, twin, key);
      if NoHit(keys[..n], url) {
        FoldKeepsNoHit(base, keys[..n], url);
        FoldKeepsNoHit(base, keys[..n], twin);
        TwinsTurn(base, url, twin, key, keys[n]);
        assert forall k :: k in keys <==> k in keys[..n] || k == keys[n];
      }
    }
  }

  /** Another key moves both to its own URL, or neither. */
  lemma TwinsTurn(base: string, url: string, twin: string, key: string, other: string)
    requires url == Url(base, key) && other != key && twin != Url(base, other) && (Hits(twin, other) <==> Hits(url, other))
    ensures Moves(base, url, other) == Moves(base, twin, other) == Hits(url, other)
    ensures Hits(url, other) ==> Turn(base, url, other) == Turn(base, twin, other)
  {
    UrlsDiffer(base, other, key);
  }

  function Padding(n: nat): string {
    if n == 0 then "" else Padding(n - 1) + "x"
  }

  lemma {:induction false} PaddingIs(n: nat)
    ensures |Padding(n)| == n && '/' !in Padding(n)
  {
    if n > 0 {
      PaddingIs(n - 1);
    }
  }

  lemma {:induction false} LongestKey(keys: seq<string>) returns (n: nat)
    ensures forall k :: k in keys ==> |k| <= n
  {
    n := 0;
    if keys != [] {
      n := LongestKey(keys[1..]);
      n := if |keys[0]| > n then |keys[0]| else n;
    }
  }

  /** Text without a slash, put in front, changes no hit. */
  lemma PaddingHits(padding: string, url: string, key: string)
    requires '/' !in padding
    ensures Hits(padding + url, key) <==> Hits(url, key)
  {
    var v := padding + url;
    if |key| + 1 <= |url| {
      assert v[|v| - |key| - 1..] == url[|url| - |key| - 1..];
    } else if |key| + 1 <= |v| {
      assert v[|v| - |key| - 1] in padding;
      assert v[|v| - |key| - 1..][0] != ("/" + key)[0];
    }
  }

  /** When a key hits a later key's URL there is a value a dry run counts wrongly: that URL, or a longer one. */
  lemma Miscounts(base: string, keys: seq<string>, i: nat, j: nat) returns (v: string)
    requires Distinct(keys) && i < j < |keys| && Hits(Url(base, keys[j]), keys[i])
    ensures Turns(base, keys, v, false) != Turns(base, keys, v, true)
  {
    var n := LongestKey(keys);
    var url := Url(base, keys[j]);
    PaddingIs(|base| + n + 2);
    var twin := Padding(|base| + n + 2) + url;
    forall k | k in keys ensures (Hits(twin, k) <==> Hits(url, k)) && twin != Url(base, k) {
      PaddingHits(Padding(|base| + n + 2), url, k);
    }
    TwinsDry(base, keys, url, twin, keys[j]);
    forall l | 0 <= l < |keys| && keys[l] == keys[j] ensures !NoHit(keys[..l], url) {
      assert l == j && keys[i] in keys[..j];
    }
    TwinsLive(base, keys, url, twin, keys[j]);
    v := if Turns(base, keys, url, false) != Turns(base, keys, url, true) then url else twin;
  }

  /** A key that is a tail of a later one hits that one's URL, whatever the base. */
  lemma TailsAreDisordered(base: string, keys: seq<string>, i: nat, j: nat)
    requires i < j < |keys| && Tail(keys[i], keys[j])
    ensures !Ordered(base, keys)
  {
    UrlHitsItself(base, keys[j]);
    TailHits(Url(base, keys[j]), keys[i], keys[j]);
  }

  /** Different keys of which none is a tail of another are ordered. */
  lemma DisjointKeysAreOrdered(base: string, keys: seq<string>)
    requires forall i, j :: 0 <= i < j < |keys| ==> !Tail(keys[i], keys[j]) && !Tail(keys[j], keys[i])
    ensures Ordered(base, keys)
  {
    forall i, j | 0 <= i < j < |keys| ensures !Hits(Url(base, keys[j]), keys[i]) {
      UrlHitsItself(base, keys[j]);
      if Hits(Url(base, keys[j]), keys[i]) {
        if |keys[i]| <= |keys[j]| {
          Comparable(Url(base, keys[j]), keys[i], keys[j]);
        } else {
          Comparable(Url(base, keys[j]), keys[j], keys[i]);
        }
      }
    }
  }
}
