/** Small migrations outside the conditions: one a dry run misjudges, one that never comes to rest, one that takes a foreign URL. */
module MigrationWitnesses {
  import opened Prelude
  import opened StorageKeys
  import opened AvatarRewrites
  import opened DirectoryListing
  import opened Migration
  import opened MigrationTheorems

  // ------------------------------------------------------- any listing, any buckets

  lemma {:induction false} FatesInOrder(job: Job, objects: Objects, run: Run, keys: seq<string>, fates: set<Fate>, i: nat, j: nat)
    returns (m: nat, n: nat)
    requires i < j < |keys|
    requires FateOf(job, objects, run, keys[i]) in fates && FateOf(job, objects, run, keys[j]) in fates
    ensures var kept := WithFate(job, objects, run, keys, fates); m < n < |kept| && kept[m] == keys[i] && kept[n] == keys[j]
  {
    var last := |keys| - 1;
    var before := WithFate(job, objects, run, keys[..last], fates);
    if j < last {
      m, n := FatesInOrder(job, objects, run, keys[..last], fates, i, j);
    } else {
      FateMembers(job, objects, run, keys[..last], fates);
      assert keys[..last][i] in before;
      m :| 0 <= m < |before| && before[m] == keys[i];
      n := |before|;
    }
  }

  lemma {:induction false} AvatarsInOrder(job: Job, keys: seq<string>, i: nat, j: nat) returns (m: nat, n: nat)
    requires i < j < |keys| && Repointable(job, keys[i]) && Repointable(job, keys[j])
    ensures var kept := AvatarKeys(job, keys, true); m < n < |kept| && kept[m] == keys[i] && kept[n] == keys[j]
  {
    var last := |keys| - 1;
    var before := AvatarKeys(job, keys[..last], true);
    if j < last {
      m, n := AvatarsInOrder(job, keys[..last], i, j);
    } else {
      AvatarMembers(job, keys[..last], true);
      assert keys[..last][i] in before;
      m :| 0 <= m < |before| && before[m] == keys[i];
      n := |before|;
    }
  }

  /** A clean run copies the key or finds it in place, and may repoint its rows. */
  predicate Migrates(job: Job, objects: Objects, keys: seq<string>, key: string) {
    FateOf(job, objects, Clean(keys), key) in IN_TARGET && Repointable(job, key)
  }

  /** Wherever an avatar key is a tail of one listed later, some table of rows gives a dry run and the real run different reports. */
  lemma NestedKeysMislead(job: Job, keys: seq<string>, objects: Objects, i: nat, j: nat)
    requires Distinct(keys) && i < j < |keys| && Tail(keys[i], keys[j])
    requires Migrates(job, objects, keys, keys[i]) && Migrates(job, objects, keys, keys[j])
    ensures !Foretells(job, keys, objects)
  {
    var kept := WithFate(job, objects, Clean(keys), keys, IN_TARGET);
    var m, n := FatesInOrder(job, objects, Clean(keys), keys, IN_TARGET, i, j);
    var m', n' := AvatarsInOrder(job, kept, m, n);
    TailsAreDisordered(AvatarBase(job), ActiveKeys(job, objects, Clean(keys)), m', n');
    DryRunForetellsIffOrdered(job, keys, objects);
  }

  lemma NotSettled(front: string, folder: string, inner: string, keys: seq<string>)
    requires inner in keys && folder + "/" + inner in keys && Minimal(keys, inner)
    ensures !Settled(front + "/" + folder, keys)
  {
    var base, outer := front + "/" + folder, folder + "/" + inner;
    assert |outer| > |inner|;
    assert Url(base, inner) == front + ("/" + outer);
    assert (front + ("/" + outer))[|front|..] == "/" + outer;
    assert Hits(Url(base, inner), outer);
  }

  /** When the base URL ends with what separates two nested keys, the outer key ends the inner one's URL on every run. */
  lemma NestedBaseNeverRests(job: Job, keys: seq<string>, objects: Objects, front: string, folder: string, inner: string)
    requires inner in keys && Migrates(job, objects, keys, inner)
    requires folder + "/" + inner in keys && Migrates(job, objects, keys, folder + "/" + inner)
    requires AvatarBase(job) == front + "/" + folder && Minimal(keys, inner)
    ensures exists avatars :: RerunUpdates(job, keys, World(objects, avatars)) > 0
  {
    var active := ActiveKeys(job, objects, Clean(keys));
    ActiveMembers(job, objects, Clean(keys));
    NotSettled(front, folder, inner, active);
    RerunUpdatesNothingIffSettled(job, keys, objects);
    var avatars :| RerunUpdates(job, keys, World(objects, avatars)) != 0;
  }

  // ---------------------------------------------------------------- one small disk

  predicate Plain(segment: string) {
    segment != "" && |segment| <= 100 && forall i :: 0 <= i < |segment| ==> Alphanumeric(segment[i])
  }

  lemma LastIsSlash(key: string)
    requires key != ""
    ensures EndsWith(key, "/") <==> key[|key| - 1] == '/'
  {
    assert key[|key| - 1..] == [key[|key| - 1]];
  }

  lemma PlainIsSafe(segment: string)
    requires Plain(segment)
    ensures SafeKey(segment)
  {
    SplitNone(segment, '/');
    LastIsSlash(segment);
  }

  lemma FiledIsSafe(folder: string, key: string)
    requires Plain(folder) && SafeKey(key) && |key| <= 400
    ensures SafeKey(folder + "/" + key) && FirstSegment(folder + "/" + key) == folder
  {
    var filed := folder + "/" + key;
    assert filed == folder + ['/'] + key;
    SplitHead(folder, '/', key);
    LastIsSlash(key);
    LastIsSlash(filed);
    SegmentsStaySafe(folder, Split(key, '/'));
    assert filed[|filed| - 1] == key[|key| - 1];
  }

  predicate SafeSegments(parts: seq<string>) {
    forall i :: 0 <= i < |parts| ==> parts[i] !in ["", ".", ".."]
  }

  lemma SegmentsStaySafe(folder: string, parts: seq<string>)
    requires Plain(folder) && SafeSegments(parts)
    ensures SafeSegments([folder] + parts)
  {
    assert Alphanumeric(folder[0]) && !Alphanumeric('.');
    assert "."[0] == '.' && ".."[0] == '.';
  }

  /** A provider whose public base URL is any address with `/avatars` at its end. */
  function Cdn(front: string): Provider {
    Provider("private", Some("public"), [AVATAR_PREFIX], Some(front + "/" + AVATAR_PREFIX), None, "", true)
  }

  function Inner(name: string): string {
    AVATAR_PREFIX + "/" + name
  }

  function Outer(name: string): string {
    AVATAR_PREFIX + "/" + Inner(name)
  }

  function CdnJob(front: string, name: string): Job {
    Job(Cdn(front), map[Inner(name) := [1], Outer(name) := [2]])
  }

  /** An upload root with `avatars/x` and `avatars/avatars/x` in it. */
  function Root(name: string): seq<Entry> {
    [Dir(AVATAR_PREFIX, true, [Dir(AVATAR_PREFIX, true, [File(name)]), File(name)])]
  }

  function Keys(name: string): seq<string> {
    Sorted(KeysOf("", Root(name)))
  }

  lemma OneEntry(prefix: string, e: Entry)
    ensures KeysOf(prefix, [e]) == KeysAt(prefix, e)
    ensures WellNamed([e]) <==> '/' !in e.name && WellNamedWithin(e)
  {
    assert [e][1..] == [] && [e][0] == e;
  }

  lemma TwoEntries(prefix: string, e: Entry, f: Entry)
    ensures KeysOf(prefix, [e, f]) == KeysAt(prefix, e) + KeysAt(prefix, f)
    ensures WellNamed([e, f]) <==>
              '/' !in e.name && '/' !in f.name && e.name != f.name && WellNamedWithin(e) && WellNamedWithin(f)
  {
    assert [e, f][1..] == [f] && [e, f][0] == e && [e, f][1] == f;
    OneEntry(prefix, f);
  }

  lemma RootKeys(name: string)
    requires Plain(name) && name != AVATAR_PREFIX
    ensures WellNamed(Root(name)) && KeysOf("", Root(name)) == [Outer(name), Inner(name)]
  {
    assert '/' !in AVATAR_PREFIX && '/' !in name;
    var prefix := "" + AVATAR_PREFIX + "/";
    var deep := Dir(AVATAR_PREFIX, true, [File(name)]);
    OneEntry(prefix + AVATAR_PREFIX + "/", File(name));
    TwoEntries(prefix, deep, File(name));
    OneEntry("", Dir(AVATAR_PREFIX, true, [deep, File(name)]));
    assert prefix + AVATAR_PREFIX + "/" + name == Outer(name) && prefix + name == Inner(name);
  }

  lemma ListedKeys(name: string)
    requires Plain(name) && name != AVATAR_PREFIX
    ensures var keys := Keys(name); InOrder(keys) && Distinct(keys) && forall k :: k in keys <==> k == Inner(name) || k == Outer(name)
  {
    RootKeys(name);
    var listed := KeysOf("", Root(name));
    SortedIs(listed);
    ListedInOrder(Root(name));
    forall k ensures k in Keys(name) <==> k == Inner(name) || k == Outer(name) {
      assert k in Keys(name) <==> k in multiset(Keys(name));
      assert k in listed <==> k in multiset(listed);
    }
  }

  lemma AvatarIsAddressable(job: Job, key: string)
    requires IsSet(job.provider.publicBaseUrl) && SafeKey(key) && |key| <= 400
    ensures Addressable(job, AVATAR_PREFIX + "/" + key)
  {
    FiledIsSafe(AVATAR_PREFIX, key);
  }

  lemma BothMigrate(front: string, name: string, keys: seq<string>)
    requires Plain(name)
    ensures Migrates(CdnJob(front, name), map[], keys, Inner(name)) && Migrates(CdnJob(front, name), map[], keys, Outer(name))
  {
    PlainIsSafe(name);
    AvatarIsAddressable(CdnJob(front, name), name);
    AvatarIsAddressable(CdnJob(front, name), Inner(name));
  }

  lemma NestedTail(name: string)
    ensures Tail(Inner(name), Outer(name)) && !Tail(Outer(name), Inner(name)) && Inner(name) != Outer(name)
  {
    var outer := "/" + Outer(name);
    assert outer == "/" + AVATAR_PREFIX + ("/" + Inner(name));
    assert outer[|AVATAR_PREFIX| + 1..] == "/" + Inner(name);
    assert |Outer(name)| > |Inner(name)|;
  }

  /** A name that sorts before `a`, as an upload's own name with a digit in front does, puts the inner key first. */
  lemma InnerSortsFirst(name: string)
    requires Plain(name) && name[0] < 'a'
    ensures Precedes(Inner(name), Outer(name)) && !Precedes(Outer(name), Inner(name))
  {
    PrecedesAfter(AVATAR_PREFIX + "/", name, Inner(name));
    PrecedesAfter(AVATAR_PREFIX + "/", Inner(name), name);
    assert Inner(name)[0] == 'a';
  }

  /** On that disk, as listed, a dry run misjudges some table of rows. */
  lemma MisleadingHappens(front: string, name: string)
    requires Plain(name) && name[0] < 'a'
    ensures !Foretells(CdnJob(front, name), Keys(name), map[])
  {
    assert AVATAR_PREFIX[0] == 'a';
    ListedKeys(name);
    var keys := Keys(name);
    assert Inner(name) in keys && Outer(name) in keys;
    var i :| 0 <= i < |keys| && keys[i] == Inner(name);
    var j :| 0 <= j < |keys| && keys[j] == Outer(name);
    InnerSortsFirst(name);
    NestedTail(name);
    BothMigrate(front, name, keys);
    NestedKeysMislead(CdnJob(front, name), keys, map[], i, j);
  }

  /** And every run repoints some row anew, whatever the name. */
  lemma RestlessHappens(front: string, name: string)
    requires Plain(name) && name != AVATAR_PREFIX
    ensures exists avatars :: RerunUpdates(CdnJob(front, name), Keys(name), World(map[], avatars)) > 0
  {
    ListedKeys(name);
    NestedTail(name);
    BothMigrate(front, name, Keys(name));
    CdnBase(CdnJob(front, name), front);
    NestedBaseNeverRests(CdnJob(front, name), Keys(name), map[], front, AVATAR_PREFIX, Inner(name));
  }

  const FOREIGN := "https://lh3.googleusercontent.com"

  /** Two values that end alike but differ just before are different. */
  lemma DifferBefore(x: string, y: string, tail: string)
    requires x != "" && y != "" && x[|x| - 1] != y[|y| - 1]
    ensures Url(x, tail) != Url(y, tail)
  {
    var i := |tail| + 2;
    assert Url(x, tail)[|Url(x, tail)| - i] == x[|x| - 1] && Url(y, tail)[|Url(y, tail)| - i] == y[|y| - 1];
  }

  /** The new URLs have the prefix in front of the shared tail, the foreign one its host. */
  lemma ForeignIsNoUrl(front: string, name: string)
    ensures var base := front + "/" + AVATAR_PREFIX;
            Url(FOREIGN, Inner(name)) != Url(base, Inner(name)) && Url(FOREIGN, Inner(name)) != Url(base, Outer(name))
  {
    var base := front + "/" + AVATAR_PREFIX;
    assert AVATAR_PREFIX[|AVATAR_PREFIX| - 1] == 's' && FOREIGN[|FOREIGN| - 1] == 'm';
    DifferBefore(FOREIGN, base, Inner(name));
    DifferBefore(FOREIGN, base + "/" + AVATAR_PREFIX, Inner(name));
    assert Url(base, Outer(name)) == Url(base + "/" + AVATAR_PREFIX, Inner(name));
  }

  /** A row that points elsewhere, at a path that happens to end in a migrated key, is taken. */
  lemma ForeignUrlIsTaken(front: string, name: string)
    requires Plain(name) && name != AVATAR_PREFIX
    ensures var w := World(map[], map[0 := FOREIGN + "/" + Inner(name)]);
            var t := Migrated(CdnJob(front, name), w, Clean(Keys(name)));
            0 in t.avatars && t.avatars[0] != w.avatars[0]
  {
    var job, keys := CdnJob(front, name), Keys(name);
    var w := World(map[], map[0 := FOREIGN + "/" + Inner(name)]);
    ListedKeys(name);
    BothMigrate(front, name, keys);
    ActiveMembers(job, map[], Clean(keys));
    ActiveAreAddressable(job, map[], Clean(keys));
    CdnBase(job, front);
    ForeignIsNoUrl(front, name);
    forall k | k in ActiveKeys(job, map[], Clean(keys)) ensures w.avatars[0] != job.provider.GetUrl(k) {
      AvatarUrl(job, k);
    }
    UrlHitsItself(FOREIGN, Inner(name));
    UntouchedExactly(job, keys, w, 0);
  }

  lemma NothingToStrip(url: string, last: char)
    requires last != '/'
    ensures StripTrailingSlashes(url + [last]) == url + [last]
  {
  }

  lemma CdnBase(job: Job, front: string)
    requires job.provider == Cdn(front)
    ensures AvatarBase(job) == front + "/" + AVATAR_PREFIX
  {
    NothingToStrip(front + "/avatar", 's');
    assert "/" + AVATAR_PREFIX == "/avatar" + ['s'];
    assert front + "/" + AVATAR_PREFIX == front + "/avatar" + ['s'];
  }
}
