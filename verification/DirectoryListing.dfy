/** The keys of a directory: every regular file that can be reached, once. */
module DirectoryListing {
  import opened Prelude
  import opened StorageKeys

  /** What a directory that cannot be read holds is never seen; links and the like are other entries. */
  datatype Entry =
    | File(name: string)
    | Dir(name: string, readable: bool, content: seq<Entry>)
    | Other(name: string)

  /** What `readdir` gives: within a directory names differ, and no name is empty or has a slash. */
  predicate WellNamed(entries: seq<Entry>)
    decreases entries
  {
    && (forall i :: 0 <= i < |entries| ==> '/' !in entries[i].name)
    && (forall i, j :: 0 <= i < j < |entries| ==> entries[i].name != entries[j].name)
    && (forall i :: 0 <= i < |entries| ==> WellNamedWithin(entries[i]))
  }

  predicate WellNamedWithin(entry: Entry)
    decreases entry
  {
    match entry
    case Dir(_, true, content) => WellNamed(content)
    case _ => true
  }

  function KeysOf(prefix: string, entries: seq<Entry>): seq<string>
    decreases entries
  {
    if entries == [] then []
    else KeysAt(prefix, entries[0]) + KeysOf(prefix, entries[1..])
  }

  function KeysAt(prefix: string, entry: Entry): seq<string>
    decreases entry
  {
    match entry
    case File(name) => [prefix + name]
    case Dir(name, true, content) => KeysOf(prefix + name + "/", content)
    case _ => []
  }

  function UnreadableOf(prefix: string, entries: seq<Entry>): seq<string>
    decreases entries
  {
    if entries == [] then []
    else UnreadableAt(prefix, entries[0]) + UnreadableOf(prefix, entries[1..])
  }

  function UnreadableAt(prefix: string, entry: Entry): seq<string>
    decreases entry
  {
    match entry
    case Dir(name, true, content) => UnreadableOf(prefix + name + "/", content)
    case Dir(name, false, _) => [prefix + name]
    case _ => []
  }

  lemma NextKeys(prefix: string, entries: seq<Entry>, i: nat, before: seq<string>, found: seq<string>)
    requires i < |entries| && KeysOf(prefix, entries) == found + KeysOf(prefix, entries[i..])
    ensures var more := found + KeysAt(prefix, entries[i]);
            && KeysOf(prefix, entries) == more + KeysOf(prefix, entries[i + 1..])
            && (before + found) + KeysAt(prefix, entries[i]) == before + more
  {
    assert entries[i..][0] == entries[i] && entries[i..][1..] == entries[i + 1..];
  }

  lemma NextUnreadable(prefix: string, entries: seq<Entry>, i: nat, before: seq<string>, found: seq<string>)
    requires i < |entries| && UnreadableOf(prefix, entries) == found + UnreadableOf(prefix, entries[i..])
    ensures var more := found + UnreadableAt(prefix, entries[i]);
            && UnreadableOf(prefix, entries) == more + UnreadableOf(prefix, entries[i + 1..])
            && (before + found) + UnreadableAt(prefix, entries[i]) == before + more
  {
    assert entries[i..][0] == entries[i] && entries[i..][1..] == entries[i + 1..];
  }

  /** The two lists the walk appends to. */
  class Listing {
    var keys: seq<string>
    var unreadable: seq<string>

    constructor ()
      ensures keys == [] && unreadable == []
    {
      keys, unreadable := [], [];
    }

    method Walk(prefix: string, entries: seq<Entry>)
      modifies this
      ensures keys == old(keys) + KeysOf(prefix, entries)
      ensures unreadable == old(unreadable) + UnreadableOf(prefix, entries)
      decreases entries
    {
      ghost var found: seq<string>, skipped: seq<string> := [], [];
      for i := 0 to |entries|
        invariant keys == old(keys) + found && KeysOf(prefix, entries) == found + KeysOf(prefix, entries[i..])
        invariant unreadable == old(unreadable) + skipped
        invariant UnreadableOf(prefix, entries) == skipped + UnreadableOf(prefix, entries[i..])
      {
        NextKeys(prefix, entries, i, old(keys), found);
        NextUnreadable(prefix, entries, i, old(unreadable), skipped);
        Visit(prefix, entries[i]);
        found, skipped := found + KeysAt(prefix, entries[i]), skipped + UnreadableAt(prefix, entries[i]);
      }
    }

    method Visit(prefix: string, entry: Entry)
      modifies this
      ensures keys == old(keys) + KeysAt(prefix, entry)
      ensures unreadable == old(unreadable) + UnreadableAt(prefix, entry)
      decreases entry
    {
      match entry
      case Dir(name, true, content) => Walk(prefix + name + "/", content);
      case Dir(name, false, _) => unreadable := unreadable + [prefix + name];
      case File(name) => keys := keys + [prefix + name];
      case Other(_) =>
    }
  }

  /** The path leads through readable directories to a regular file. */
  predicate FileAt(entries: seq<Entry>, path: seq<string>)
    decreases |path|
  {
    path != [] && exists i :: 0 <= i < |entries| && EntryLeads(entries[i], path)
  }

  predicate EntryLeads(entry: Entry, path: seq<string>)
    requires path != []
    decreases |path|, 0
  {
    entry.name == path[0] &&
    match entry
    case File(_) => |path| == 1
    case Dir(_, true, content) => FileAt(content, path[1..])
    case _ => false
  }

  // --------------------------------------------------- every file, and once each

  lemma {:induction false} SplitShape(s: string, sep: char)
    ensures var parts := Split(s, sep); var head := parts[0];
            && head <= s
            && (|parts| == 1 ==> s == head)
            && (|parts| > 1 ==> |s| > |head| && s[|head|] == sep && Split(s[|head| + 1..], sep) == parts[1..])
  {
    if s != "" {
      SplitShape(s[1..], sep);
      var head := Split(s[1..], sep)[0];
      if s[0] != sep && |head| < |s| - 1 {
        assert s[1..][|head| + 1..] == s[|head| + 2..];
      }
    }
  }

  predicate Listed(prefix: string, entries: seq<Entry>, key: string) {
    prefix <= key && FileAt(entries, Split(key[|prefix|..], '/'))
  }

  predicate ListedAt(prefix: string, entry: Entry, key: string) {
    prefix <= key && EntryLeads(entry, Split(key[|prefix|..], '/'))
  }

  lemma FileKey(prefix: string, name: string, key: string)
    requires '/' !in name
    ensures key == prefix + name <==> ListedAt(prefix, File(name), key)
  {
    if prefix <= key {
      var rest := key[|prefix|..];
      SplitShape(rest, '/');
      SplitNone(name, '/');
      assert key == prefix + rest;
    }
  }

  lemma LeadsInto(name: string, content: seq<Entry>, path: seq<string>)
    requires path != []
    ensures EntryLeads(Dir(name, true, content), path) <==> path[0] == name && |path| > 1 && FileAt(content, path[1..])
  {
    if FileAt(content, path[1..]) {
      assert path[1..] != [];
    }
  }

  lemma NameIsFirst(name: string, more: string)
    requires '/' !in name
    ensures Split(name + "/" + more, '/') == [name] + Split(more, '/')
  {
    SplitHead(name, '/', more);
  }

  lemma FirstIsName(name: string, rest: string)
    requires Split(rest, '/')[0] == name && |Split(rest, '/')| > 1
    ensures name + "/" <= rest
  {
    SplitShape(rest, '/');
  }

  /** A string starts with a slash-free name and a slash exactly when that name is its first part of several. */
  lemma NameThenSlash(name: string, rest: string)
    requires '/' !in name
    ensures var parts := Split(rest, '/');
            && (name + "/" <= rest <==> parts[0] == name && |parts| > 1)
            && (name + "/" <= rest ==> Split(rest[|name| + 1..], '/') == parts[1..])
  {
    if name + "/" <= rest {
      assert rest == name + "/" + rest[|name| + 1..];
      NameIsFirst(name, rest[|name| + 1..]);
    } else if Split(rest, '/')[0] == name && |Split(rest, '/')| > 1 {
      FirstIsName(name, rest);
    }
  }

  lemma DropPrefix(prefix: string, more: string, key: string)
    ensures prefix + more <= key <==> prefix <= key && more <= key[|prefix|..]
    ensures prefix + more <= key ==> key[|prefix + more|..] == key[|prefix|..][|more|..]
  {
    if prefix <= key && more <= key[|prefix|..] {
      assert key == prefix + key[|prefix|..];
    }
  }

  lemma DirKey(prefix: string, name: string, content: seq<Entry>, key: string)
    requires '/' !in name
    ensures Listed(prefix + name + "/", content, key) <==> ListedAt(prefix, Dir(name, true, content), key)
  {
    assert prefix + name + "/" == prefix + (name + "/");
    DropPrefix(prefix, name + "/", key);
    if prefix <= key {
      NameThenSlash(name, key[|prefix|..]);
      LeadsInto(name, content, Split(key[|prefix|..], '/'));
    }
  }

  /** Under one entry the walk lists exactly the files it leads to. */
  lemma {:induction false} EntryExactly(prefix: string, entry: Entry, key: string)
    requires '/' !in entry.name && WellNamedWithin(entry)
    ensures key in KeysAt(prefix, entry) <==> ListedAt(prefix, entry, key)
    decreases entry
  {
    match entry
    case File(name) => FileKey(prefix, name, key);
    case Dir(name, true, content) =>
      EntriesExactly(prefix + name + "/", content, key);
      DirKey(prefix, name, content, key);
    case _ =>
  }

  lemma {:induction false} EntriesExactly(prefix: string, entries: seq<Entry>, key: string)
    requires WellNamed(entries)
    ensures key in KeysOf(prefix, entries) <==> Listed(prefix, entries, key)
    decreases entries
  {
    if entries != [] {
      EntryExactly(prefix, entries[0], key);
      EntriesExactly(prefix, entries[1..], key);
      if prefix <= key {
        FirstOrRest(entries, Split(key[|prefix|..], '/'));
      }
    }
  }

  lemma FirstOrRest(entries: seq<Entry>, path: seq<string>)
    requires entries != [] && path != []
    ensures FileAt(entries, path) <==> EntryLeads(entries[0], path) || FileAt(entries[1..], path)
  {
    if i :| 0 <= i < |entries| && EntryLeads(entries[i], path) {
      assert i > 0 ==> entries[1..][i - 1] == entries[i];
    }
  }

  /** Names differ, so no two entries list the same key. */
  lemma KeysApart(prefix: string, entries: seq<Entry>, key: string)
    requires WellNamed(entries) && entries != []
    ensures !(key in KeysAt(prefix, entries[0]) && key in KeysOf(prefix, entries[1..]))
  {
    EntryExactly(prefix, entries[0], key);
    EntriesExactly(prefix, entries[1..], key);
    if prefix <= key && FileAt(entries[1..], Split(key[|prefix|..], '/')) {
      var path := Split(key[|prefix|..], '/');
      var i :| 0 <= i < |entries[1..]| && EntryLeads(entries[1..][i], path);
      assert entries[1..][i] == entries[i + 1];
    }
  }

  lemma {:induction false} EntryOnce(prefix: string, entry: Entry)
    requires WellNamedWithin(entry)
    ensures Distinct(KeysAt(prefix, entry))
    decreases entry
  {
    match entry
    case Dir(name, true, content) => EntriesOnce(prefix + name + "/", content);
    case _ =>
  }

  lemma {:induction false} EntriesOnce(prefix: string, entries: seq<Entry>)
    requires WellNamed(entries)
    ensures Distinct(KeysOf(prefix, entries))
    decreases entries
  {
    if entries != [] {
      EntryOnce(prefix, entries[0]);
      EntriesOnce(prefix, entries[1..]);
      forall i, j | 0 <= i < |KeysAt(prefix, entries[0])| && 0 <= j < |KeysOf(prefix, entries[1..])|
        ensures KeysAt(prefix, entries[0])[i] != KeysOf(prefix, entries[1..])[j]
      {
        KeysApart(prefix, entries, KeysAt(prefix, entries[0])[i]);
      }
    }
  }

  /** The keys listed are exactly the paths that lead through readable directories to a regular file, each once. */
  lemma ListsEveryFileOnce(root: seq<Entry>)
    requires WellNamed(root)
    ensures Distinct(KeysOf("", root))
    ensures forall key :: key in KeysOf("", root) <==> FileAt(root, Split(key, '/'))
  {
    EntriesOnce("", root);
    forall key ensures key in KeysOf("", root) <==> FileAt(root, Split(key, '/')) {
      EntriesExactly("", root, key);
      assert key[0..] == key;
    }
  }

  lemma {:induction false} DistinctIffOnce(keys: seq<string>)
    ensures Distinct(keys) <==> forall k :: multiset(keys)[k] <= 1
  {
    if keys != [] {
      var n := |keys| - 1;
      var init := keys[..n];
      DistinctIffOnce(init);
      assert keys == init + [keys[n]];
      assert Distinct(keys) <==> Distinct(init) && keys[n] !in init;
      assert forall k :: multiset(keys)[k] == multiset(init)[k] + if k == keys[n] then 1 else 0;
      assert multiset(init)[keys[n]] == 0 <==> keys[n] !in init;
      if forall k :: multiset(keys)[k] <= 1 {
        assert multiset(keys)[keys[n]] <= 1;
      }
    }
  }

  /** Sorting, or any other rearrangement, keeps that. */
  lemma InAnyOrder(root: seq<Entry>, keys: seq<string>)
    requires WellNamed(root) && multiset(keys) == multiset(KeysOf("", root))
    ensures Distinct(keys)
    ensures forall key :: key in keys <==> FileAt(root, Split(key, '/'))
  {
    ListsEveryFileOnce(root);
    DistinctIffOnce(KeysOf("", root));
    DistinctIffOnce(keys);
    assert forall key :: key in keys <==> key in multiset(keys);
    assert forall key :: key in KeysOf("", root) <==> key in multiset(KeysOf("", root));
  }

  // ------------------------------------------- every directory that bars the way

  /** The path leads through readable directories to one that cannot be read. */
  predicate BarredAt(entries: seq<Entry>, path: seq<string>)
    decreases |path|
  {
    path != [] && exists i :: 0 <= i < |entries| && LeadsToBar(entries[i], path)
  }

  predicate LeadsToBar(entry: Entry, path: seq<string>)
    requires path != []
    decreases |path|, 0
  {
    entry.name == path[0] && entry.Dir? &&
    if entry.readable then BarredAt(entry.content, path[1..]) else |path| == 1
  }

  /** The tree in which the directories that cannot be read are the files. */
  function Bars(entries: seq<Entry>): (bars: seq<Entry>)
    ensures |bars| == |entries|
    decreases entries
  {
    if entries == [] then [] else [Bar(entries[0])] + Bars(entries[1..])
  }

  function Bar(entry: Entry): (bar: Entry)
    ensures bar.name == entry.name
    decreases entry
  {
    match entry
    case Dir(name, true, content) => Dir(name, true, Bars(content))
    case Dir(name, false, _) => File(name)
    case _ => Other(entry.name)
  }

  lemma {:induction false} BarsAre(entries: seq<Entry>, i: nat)
    requires i < |entries|
    ensures Bars(entries)[i] == Bar(entries[i])
  {
    if i > 0 {
      BarsAre(entries[1..], i - 1);
    }
  }

  lemma {:induction false} UnreadableAreBars(prefix: string, entries: seq<Entry>)
    ensures UnreadableOf(prefix, entries) == KeysOf(prefix, Bars(entries))
    decreases entries
  {
    if entries != [] {
      UnreadableIsBar(prefix, entries[0]);
      UnreadableAreBars(prefix, entries[1..]);
      assert Bars(entries)[1..] == Bars(entries[1..]);
    }
  }

  lemma {:induction false} UnreadableIsBar(prefix: string, entry: Entry)
    ensures UnreadableAt(prefix, entry) == KeysAt(prefix, Bar(entry))
    decreases entry
  {
    match entry
    case Dir(name, true, content) => UnreadableAreBars(prefix + name + "/", content);
    case _ =>
  }

  lemma {:induction false} BarsWellNamed(entries: seq<Entry>)
    requires WellNamed(entries)
    ensures WellNamed(Bars(entries))
    decreases entries
  {
    forall i | 0 <= i < |entries| ensures Bars(entries)[i].name == entries[i].name && WellNamedWithin(Bars(entries)[i]) {
      BarsAre(entries, i);
      match entries[i]
      case Dir(_, true, content) =>
        assert WellNamedWithin(entries[i]);
        BarsWellNamed(content);
      case _ =>
    }
  }

  lemma {:induction false} LeadsToBars(entries: seq<Entry>, path: seq<string>)
    ensures FileAt(Bars(entries), path) <==> BarredAt(entries, path)
    decreases |path|
  {
    if path != [] {
      forall i | 0 <= i < |entries| ensures Bars(entries)[i] == Bar(entries[i]) {
        BarsAre(entries, i);
      }
      forall i | 0 <= i < |entries| ensures EntryLeads(Bar(entries[i]), path) <==> LeadsToBar(entries[i], path) {
        match entries[i]
        case Dir(_, true, content) => LeadsToBars(content, path[1..]);
        case _ =>
      }
    }
  }

  /** Reported unreadable are exactly the directories, reached through readable ones, that cannot be read, each once. */
  lemma ReportsEveryBar(root: seq<Entry>)
    requires WellNamed(root)
    ensures Distinct(UnreadableOf("", root))
    ensures forall dir :: dir in UnreadableOf("", root) <==> BarredAt(root, Split(dir, '/'))
  {
    BarsWellNamed(root);
    UnreadableAreBars("", root);
    ListsEveryFileOnce(Bars(root));
    forall dir ensures dir in UnreadableOf("", root) <==> BarredAt(root, Split(dir, '/')) {
      LeadsToBars(root, Split(dir, '/'));
    }
  }

  // -------------------------------------------------------------------- sorting

  /** Where a character sorts by its UTF-16 units: one that takes two starts with a surrogate, below U+E000. */
  function Rank(c: char): int {
    var n := c as int;
    if 0xE000 <= n <= 0xFFFF then n + 0x11_0000 else n
  }

  lemma RanksDiffer(a: char, b: char)
    ensures Rank(a) == Rank(b) <==> a == b
  {
    assert a as int == b as int <==> a == b;
  }

  /** The order of `sort`: by UTF-16 units, a prefix first. */
  predicate Precedes(a: string, b: string) {
    if a == "" then true
    else if b == "" then false
    else Rank(a[0]) < Rank(b[0]) || (a[0] == b[0] && Precedes(a[1..], b[1..]))
  }

  /** The UTF-16 units of a character: two above U+FFFF. */
  function Units(c: char): (units: seq<int>)
    ensures 1 <= |units| <= 2
  {
    var n := c as int - 0x1_0000;
    if n < 0 then [c as int] else [0xD800 + n / 0x400, 0xDC00 + n % 0x400]
  }

  function Utf16(s: string): seq<int> {
    if s == "" then [] else Units(s[0]) + Utf16(s[1..])
  }

  predicate UnitsPrecede(x: seq<int>, y: seq<int>) {
    x == [] || (y != [] && (x[0] < y[0] || (x[0] == y[0] && UnitsPrecede(x[1..], y[1..]))))
  }

  lemma SameUnits(units: seq<int>, x: seq<int>, y: seq<int>)
    requires 1 <= |units| <= 2
    ensures UnitsPrecede(units + x, units + y) <==> UnitsPrecede(x, y)
  {
    assert (units + x)[1..] == units[1..] + x && (units + y)[1..] == units[1..] + y;
    if |units| == 2 {
      assert (units[1..] + x)[1..] == x && (units[1..] + y)[1..] == y;
    } else {
      assert units[1..] + x == x && units[1..] + y == y;
    }
  }

  /** Different characters are told apart by their units as by their ranks, whatever follows. */
  lemma UnitsDiffer(a: char, b: char, x: seq<int>, y: seq<int>)
    requires a != b
    ensures UnitsPrecede(Units(a) + x, Units(b) + y) <==> Rank(a) < Rank(b)
  {
    var p, q := Units(a) + x, Units(b) + y;
    assert p[0] == Units(a)[0] && q[0] == Units(b)[0];
    if |Units(a)| == |Units(b)| == 2 {
      assert p[1..][0] == Units(a)[1] && q[1..][0] == Units(b)[1];
    }
  }

  /** The sort's order is that of the UTF-16 units. */
  lemma {:induction false} PrecedesByUnits(a: string, b: string)
    ensures Precedes(a, b) <==> UnitsPrecede(Utf16(a), Utf16(b))
  {
    if a != "" && b != "" {
      if a[0] == b[0] {
        PrecedesByUnits(a[1..], b[1..]);
        SameUnits(Units(a[0]), Utf16(a[1..]), Utf16(b[1..]));
      } else {
        UnitsDiffer(a[0], b[0], Utf16(a[1..]), Utf16(b[1..]));
      }
    }
  }

  lemma {:induction false} PrecedesIsTotal(a: string, b: string)
    ensures Precedes(a, b) || Precedes(b, a)
  {
    if a != "" && b != "" {
      RanksDiffer(a[0], b[0]);
      if a[0] == b[0] {
        PrecedesIsTotal(a[1..], b[1..]);
      }
    }
  }

  lemma {:induction false} PrecedesIsTransitive(a: string, b: string, c: string)
    requires Precedes(a, b) && Precedes(b, c)
    ensures Precedes(a, c)
  {
    if a != "" && a[0] == b[0] == c[0] {
      PrecedesIsTransitive(a[1..], b[1..], c[1..]);
    }
  }

  /** What comes after a common beginning decides. */
  lemma {:induction false} PrecedesAfter(common: string, a: string, b: string)
    ensures Precedes(common + a, common + b) <==> Precedes(a, b)
  {
    if common != "" {
      assert (common + a)[1..] == common[1..] + a && (common + b)[1..] == common[1..] + b;
      PrecedesAfter(common[1..], a, b);
    } else {
      assert common + a == a && common + b == b;
    }
  }

  predicate InOrder(keys: seq<string>) {
    forall i, j :: 0 <= i < j < |keys| ==> Precedes(keys[i], keys[j])
  }

  function Inserted(key: string, keys: seq<string>): seq<string> {
    if keys == [] then [key]
    else if Precedes(key, keys[0]) then [key] + keys
    else [keys[0]] + Inserted(key, keys[1..])
  }

  function Sorted(keys: seq<string>): seq<string> {
    if keys == [] then [] else Inserted(keys[0], Sorted(keys[1..]))
  }

  lemma {:induction false} InsertedHolds(key: string, keys: seq<string>)
    ensures multiset(Inserted(key, keys)) == multiset(keys) + multiset{key}
    ensures forall k :: k in Inserted(key, keys) <==> k in keys || k == key
  {
    if keys != [] {
      InsertedHolds(key, keys[1..]);
      assert keys == [keys[0]] + keys[1..];
    }
  }

  /** A key that comes before all keys in order may be put in front. */
  lemma FirstInOrder(key: string, keys: seq<string>)
    requires InOrder(keys) && forall k :: k in keys ==> Precedes(key, k)
    ensures InOrder([key] + keys)
  {
    forall i, j | 0 <= i < j < |keys| + 1 ensures Precedes(([key] + keys)[i], ([key] + keys)[j]) {
      assert ([key] + keys)[j] == keys[j - 1];
      assert i > 0 ==> ([key] + keys)[i] == keys[i - 1];
    }
  }

  lemma TailInOrder(keys: seq<string>)
    requires InOrder(keys) && keys != []
    ensures InOrder(keys[1..]) && forall k :: k in keys[1..] ==> Precedes(keys[0], k)
  {
  }

  lemma {:induction false} InsertedInOrder(key: string, keys: seq<string>)
    requires InOrder(keys)
    ensures InOrder(Inserted(key, keys))
  {
    if keys == [] {
    } else if Precedes(key, keys[0]) {
      TailInOrder(keys);
      forall k | k in keys ensures Precedes(key, k) {
        if k != keys[0] {
          assert k in keys[1..];
          PrecedesIsTransitive(key, keys[0], k);
        }
      }
      FirstInOrder(key, keys);
    } else {
      PrecedesIsTotal(key, keys[0]);
      TailInOrder(keys);
      InsertedInOrder(key, keys[1..]);
      InsertedHolds(key, keys[1..]);
      FirstInOrder(keys[0], Inserted(key, keys[1..]));
    }
  }

  lemma {:induction false} SortedIs(keys: seq<string>)
    ensures InOrder(Sorted(keys)) && multiset(Sorted(keys)) == multiset(keys)
  {
    if keys != [] {
      SortedIs(keys[1..]);
      InsertedInOrder(keys[0], Sorted(keys[1..]));
      InsertedHolds(keys[0], Sorted(keys[1..]));
      assert keys == [keys[0]] + keys[1..];
    }
  }

  /** `listLocalKeys`: the root as `readdir` finds it, if it can be read. */
  method ListLocalKeys(readable: bool, root: seq<Entry>) returns (keys: seq<string>, unreadable: seq<string>)
    ensures keys == if readable then Sorted(KeysOf("", root)) else []
    ensures unreadable == if readable then UnreadableOf("", root) else ["."]
  {
    if !readable {
      return [], ["."];
    }
    var listing := new Listing();
    listing.Walk("", root);
    assert [] + KeysOf("", root) == KeysOf("", root) && [] + UnreadableOf("", root) == UnreadableOf("", root);
    return Sorted(listing.keys), listing.unreadable;
  }

  /** The keys listed are in order, each once, and exactly the files that can be reached. */
  lemma ListedInOrder(root: seq<Entry>)
    requires WellNamed(root)
    ensures var keys := Sorted(KeysOf("", root));
            InOrder(keys) && Distinct(keys) && forall key :: key in keys <==> FileAt(root, Split(key, '/'))
  {
    SortedIs(KeysOf("", root));
    InAnyOrder(root, Sorted(KeysOf("", root)));
  }
}
