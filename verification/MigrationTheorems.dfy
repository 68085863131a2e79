/** Convergence, idempotence, and what a dry run foretells. */
module MigrationTheorems {
  import opened Prelude
  import opened StorageKeys
  import opened AvatarRewrites
  import opened Migration

  // ------------------------------------------------------------- one avatar key

  /** A LIKE query never misses an exact match. */
  lemma LikeOverMatches(value: string, suffix: string)
    requires EndsWith(value, suffix)
    ensures LikeEndsWith(value, suffix)
  {
  }

  /**
   Whatever superset of the exact matches the query returned, and whatever became
   of the rows since: exactly the rows that ended with the key, differed from the
   new URL and still hold the value read are pointed at it.
   */
  lemma ChangesExactly(job: Job, key: string, seen: Avatars, candidates: Avatars, rows: Avatars)
    requires forall id :: id in candidates ==> id in seen && candidates[id] == seen[id]
    requires forall id :: id in seen && EndsWith(seen[id], "/" + key) ==> id in candidates
    ensures var read := Rechecked(job, candidates, key);
            && StillEqual(rows, read) == (set id | id in rows && id in seen && ToMove(job, seen[id], key) && rows[id] == seen[id])
            && CompareAndSet(rows, read, job.provider.GetUrl(key)).Keys == rows.Keys
            && forall id :: id in rows ==>
                 CompareAndSet(rows, read, job.provider.GetUrl(key))[id]
                 == if id in seen && ToMove(job, seen[id], key) && rows[id] == seen[id] then job.provider.GetUrl(key) else rows[id]
  {
  }

  // --------------------------------------------------------- every key has a place

  lemma {:induction false} FateMembers(job: Job, objects: Objects, run: Run, keys: seq<string>, fates: set<Fate>)
    ensures forall k :: k in WithFate(job, objects, run, keys, fates) <==> k in keys && FateOf(job, objects, run, k) in fates
  {
    if keys != [] {
      var n := |keys| - 1;
      FateMembers(job, objects, run, keys[..n], fates);
      assert forall k :: k in keys <==> k in keys[..n] || k == keys[n];
    }
  }

  lemma {:induction false} AvatarMembers(job: Job, keys: seq<string>, readable: bool)
    ensures forall k :: k in AvatarKeys(job, keys, readable) <==>
              k in keys && job.IsAvatarKey(k) && job.IsPubliclyReadable(k) == readable
  {
    if keys != [] {
      var n := |keys| - 1;
      AvatarMembers(job, keys[..n], readable);
      assert forall k :: k in keys <==> k in keys[..n] || k == keys[n];
    }
  }

  lemma ActiveMembers(job: Job, objects: Objects, run: Run)
    ensures forall k :: k in ActiveKeys(job, objects, run) <==>
              k in run.keys && FateOf(job, objects, run, k) in IN_TARGET && Repointable(job, k)
  {
    FateMembers(job, objects, run, run.keys, IN_TARGET);
    AvatarMembers(job, WithFate(job, objects, run, run.keys, IN_TARGET), true);
  }

  function OnceIn(keys: seq<string>, k: string): nat {
    if k in keys then 1 else 0
  }

  /** Every listed key lands in exactly one of the five lists, and nothing else does. */
  lemma OneListEach(job: Job, w: World, run: Run, k: string)
    requires k in run.keys
    ensures var r := ReportOf(job, w, run);
            var failed := WithFate(job, w.objects, run, run.keys, {Failed});
            OnceIn(r.copied, k) + OnceIn(r.alreadyPresent, k) + OnceIn(r.conflicts, k) + OnceIn(r.unsafe, k) + OnceIn(failed, k) == 1
  {
    FateMembers(job, w.objects, run, run.keys, {Copied});
    FateMembers(job, w.objects, run, run.keys, {AlreadyPresent});
    FateMembers(job, w.objects, run, run.keys, {Conflict});
    FateMembers(job, w.objects, run, run.keys, {Unsafe});
    FateMembers(job, w.objects, run, run.keys, {Failed});
  }

  lemma UploadsAre(job: Job, objects: Objects, run: Run, keys: seq<string>)
    ensures var uploads := Uploads(job, objects, run, keys);
            && (forall c :: c in uploads <==>
                  !run.dryRun && c.1 in keys && c == job.Place(c.1) && FateOf(job, objects, run, c.1) == Copied)
            && (forall c :: c in uploads ==> c !in objects && c.1 in job.disk && uploads[c] == job.disk[c.1])
  {
    var uploads := Uploads(job, objects, run, keys);
    forall c: (string, string) | !run.dryRun && c.1 in keys && c == job.Place(c.1) && FateOf(job, objects, run, c.1) == Copied
      ensures c in uploads
    {
      assert job.Place(c.1) in uploads;
    }
  }

  /** A run never alters or removes an object, and writes exactly the disk's bytes of the keys it reports copied. */
  lemma ObjectsOnlyAdded(job: Job, w: World, run: Run)
    ensures var t := Migrated(job, w, run); var r := ReportOf(job, w, run);
            && (forall c :: c in w.objects ==> c in t.objects && t.objects[c] == w.objects[c])
            && (forall c :: c in t.objects && c !in w.objects <==> !run.dryRun && c.1 in r.copied && c == job.Place(c.1))
            && (forall c :: c in t.objects && c !in w.objects ==> c.1 in job.disk && t.objects[c] == job.disk[c.1])
            && (run.dryRun ==> t == w)
  {
    UploadsAre(job, w.objects, run, run.keys);
    FateMembers(job, w.objects, run, run.keys, {Copied});
    if run.dryRun {
      DryLeavesRows(job, w.avatars, run, ActiveKeys(job, w.objects, run));
    }
  }

  lemma {:induction false} DryLeavesRows(job: Job, rows: Avatars, run: Run, keys: seq<string>)
    requires run.dryRun
    ensures RewriteAll(job, rows, run, keys) == rows
  {
    if keys != [] {
      DryLeavesRows(job, rows, run, keys[..|keys| - 1]);
    }
  }

  // --------------------------------------------------------------- row by row

  /** The base all repointable keys share. */
  function AvatarBase(job: Job): string {
    job.provider.UrlBase(job.provider.BucketFor(AVATAR_PREFIX))
  }

  predicate Addressable(job: Job, key: string) {
    SafeKey(key) && Repointable(job, key)
  }

  lemma AvatarUrl(job: Job, key: string)
    requires Addressable(job, key)
    ensures job.provider.GetUrl(key) == Url(AvatarBase(job), key)
    ensures forall v :: ToMove(job, v, key) <==> Moves(AvatarBase(job), v, key)
  {
    UrlShape(job.provider, key);
    SplitHead(AVATAR_PREFIX, '/', "");
    assert FirstSegment(AVATAR_PREFIX) == AVATAR_PREFIX;
  }

  predicate AllAddressable(job: Job, keys: seq<string>) {
    forall k :: k in keys ==> Addressable(job, k)
  }

  lemma ActiveAreAddressable(job: Job, objects: Objects, run: Run)
    ensures AllAddressable(job, ActiveKeys(job, objects, run))
  {
    ActiveMembers(job, objects, run);
  }

  predicate Unhindered(run: Run) {
    !run.dryRun && run.faults.find == {} && run.faults.update == {}
  }

  /** When nothing fails, every row is folded over the keys on its own. */
  lemma {:induction false} RewriteIsFold(job: Job, rows: Avatars, run: Run, keys: seq<string>)
    requires Unhindered(run) && AllAddressable(job, keys)
    ensures RewriteAll(job, rows, run, keys).Keys == rows.Keys
    ensures forall id :: id in rows ==> RewriteAll(job, rows, run, keys)[id] == Fold(AvatarBase(job), keys, rows[id])
  {
    if keys != [] {
      RewriteIsFold(job, rows, run, keys[..|keys| - 1]);
      AvatarUrl(job, keys[|keys| - 1]);
    }
  }

  /**
   A stored URL that is not the new one of any migrated avatar key survives a clean
   run if and only if it ends in none of them, wherever it points.
   */
  lemma UntouchedExactly(job: Job, keys: seq<string>, w: World, id: nat)
    requires id in w.avatars
    requires forall k :: k in ActiveKeys(job, w.objects, Clean(keys)) ==> w.avatars[id] != job.provider.GetUrl(k)
    ensures id in Migrated(job, w, Clean(keys)).avatars
    ensures Migrated(job, w, Clean(keys)).avatars[id] == w.avatars[id]
       <==> NoHit(ActiveKeys(job, w.objects, Clean(keys)), w.avatars[id])
  {
    var active := ActiveKeys(job, w.objects, Clean(keys));
    ActiveAreAddressable(job, w.objects, Clean(keys));
    RewriteIsFold(job, w.avatars, Clean(keys), active);
    forall k | k in active ensures w.avatars[id] != Url(AvatarBase(job), k) {
      AvatarUrl(job, k);
    }
    LeftAloneIffNoHit(AvatarBase(job), active, w.avatars[id]);
  }

  // ---------------------------------------------------------------- convergence

  /** What any number of runs over the same disk may have done to the buckets so far. */
  ghost predicate PartlyCopied(job: Job, keys: seq<string>, before: Objects, after: Objects) {
    && (forall c :: c in before ==> c in after && after[c] == before[c])
    && (forall c :: c in after && c !in before ==>
          c.1 in keys && c == job.Place(c.1) && SafeKey(c.1) && c.1 in job.disk && after[c] == job.disk[c.1])
  }

  /** ... and to the rows: an untouchable value is untouched, any other keeps its shortest hit. */
  ghost predicate PartlyRewritten(active: seq<string>, before: Avatars, after: Avatars) {
    && after.Keys == before.Keys
    && forall id :: id in before ==> SameOutlook(active, before[id], after[id])
  }

  ghost predicate SameOutlook(active: seq<string>, v: string, w: string) {
    && (NoHit(active, v) ==> w == v)
    && (forall k :: IsShortest(active, v, k) ==> IsShortest(active, w, k))
  }

  lemma {:induction false} SameFates(job: Job, objects: Objects, run: Run, objects': Objects, run': Run, keys: seq<string>, fates: set<Fate>)
    requires forall k :: k in keys ==> (FateOf(job, objects, run, k) in fates <==> FateOf(job, objects', run', k) in fates)
    ensures WithFate(job, objects, run, keys, fates) == WithFate(job, objects', run', keys, fates)
  {
    if keys != [] {
      SameFates(job, objects, run, objects', run', keys[..|keys| - 1], fates);
    }
  }

  /** A clean run leaves alone, over partly copied buckets, what it would copy or leave alone before. */
  lemma CleanFate(job: Job, keys: seq<string>, before: Objects, after: Objects, k: string)
    requires PartlyCopied(job, keys, before, after)
    ensures var fate, fate' := FateOf(job, before, Clean(keys), k), FateOf(job, after, Clean(keys), k);
            fate' == if fate == Copied && job.Place(k) in after then AlreadyPresent else fate
  {
    assert job.Place(k).1 == k;
  }

  /** A clean run over partly copied buckets repoints the same keys. */
  lemma SameActive(job: Job, keys: seq<string>, before: Objects, after: Objects)
    requires PartlyCopied(job, keys, before, after)
    ensures ActiveKeys(job, after, Clean(keys)) == ActiveKeys(job, before, Clean(keys))
  {
    forall k | k in keys
      ensures FateOf(job, after, Clean(keys), k) in IN_TARGET <==> FateOf(job, before, Clean(keys), k) in IN_TARGET
    {
      CleanFate(job, keys, before, after, k);
    }
    SameFates(job, after, Clean(keys), before, Clean(keys), keys, IN_TARGET);
  }

  function Lookup(objects: Objects, c: (string, string)): Option<Body> {
    if c in objects then Some(objects[c]) else None
  }

  /** The object a clean run leaves at a place: the one there, else the disk's, else none. */
  function Completed(job: Job, keys: seq<string>, objects: Objects, c: (string, string)): Option<Body> {
    if c in objects then Some(objects[c])
    else if c.1 in keys && c == job.Place(c.1) && SafeKey(c.1) && c.1 in job.disk then Some(job.disk[c.1])
    else None
  }

  lemma CleanCompletes(job: Job, keys: seq<string>, objects: Objects, c: (string, string))
    ensures Lookup(objects + Uploads(job, objects, Clean(keys), keys), c) == Completed(job, keys, objects, c)
  {
    UploadsAre(job, objects, Clean(keys), keys);
  }

  /** A clean run over partly copied buckets completes them to the same buckets. */
  lemma SameObjects(job: Job, keys: seq<string>, before: Objects, after: Objects)
    requires PartlyCopied(job, keys, before, after)
    ensures after + Uploads(job, after, Clean(keys), keys) == before + Uploads(job, before, Clean(keys), keys)
  {
    var xs, ys := after + Uploads(job, after, Clean(keys), keys), before + Uploads(job, before, Clean(keys), keys);
    forall c ensures Lookup(xs, c) == Lookup(ys, c) {
      CleanCompletes(job, keys, after, c);
      CleanCompletes(job, keys, before, c);
    }
    SameLookups(xs, ys);
  }

  lemma SameLookups(xs: Objects, ys: Objects)
    requires forall c :: Lookup(xs, c) == Lookup(ys, c)
    ensures xs == ys
  {
    forall c ensures c in xs <==> c in ys {
      assert Lookup(xs, c) == Lookup(ys, c);
    }
    forall c | c in xs ensures xs[c] == ys[c] {
      assert Lookup(xs, c) == Lookup(ys, c);
    }
  }

  /** Whatever keys a hindered run repoints, a clean run repoints too. */
  lemma ActiveEitherWay(job: Job, keys: seq<string>, objects: Objects, run: Run)
    requires forall k :: k in run.keys ==> k in keys
    ensures forall k :: k in ActiveKeys(job, objects, run) ==> k in ActiveKeys(job, objects, Clean(keys))
  {
    ActiveMembers(job, objects, run);
    ActiveMembers(job, objects, Clean(keys));
  }

  lemma {:induction false} RewritePartly(job: Job, active: seq<string>, before: Avatars, rows: Avatars, run: Run, keys: seq<string>)
    requires AllAddressable(job, active) && forall k :: k in keys ==> k in active
    requires PartlyRewritten(active, before, rows)
    ensures PartlyRewritten(active, before, RewriteAll(job, rows, run, keys))
  {
    if keys != [] {
      var n := |keys| - 1;
      RewritePartly(job, active, before, rows, run, keys[..n]);
      TurnPartly(job, active, before, RewriteAll(job, rows, run, keys[..n]), run, keys[n]);
    }
  }

  lemma TurnPartly(job: Job, active: seq<string>, before: Avatars, rows: Avatars, run: Run, key: string)
    requires AllAddressable(job, active) && key in active
    requires PartlyRewritten(active, before, rows)
    ensures PartlyRewritten(active, before, RewriteKey(job, rows, run, key))
  {
    var after := RewriteKey(job, rows, run, key);
    AvatarUrl(job, key);
    forall id | id in before ensures SameOutlook(active, before[id], after[id]) {
      assert SameOutlook(active, before[id], rows[id]);
      forall k | IsShortest(active, before[id], k) ensures IsShortest(active, after[id], k) {
        TurnKeepsShortest(AvatarBase(job), active, rows[id], key, k);
      }
    }
  }

  /** One run, however hindered, moves buckets and rows only towards where a clean run takes them. */
  lemma RunPartly(job: Job, keys: seq<string>, before: World, w: World, run: Run)
    requires forall k :: k in run.keys ==> k in keys
    requires PartlyCopied(job, keys, before.objects, w.objects)
    requires PartlyRewritten(ActiveKeys(job, before.objects, Clean(keys)), before.avatars, w.avatars)
    ensures PartlyCopied(job, keys, before.objects, Migrated(job, w, run).objects)
    ensures PartlyRewritten(ActiveKeys(job, before.objects, Clean(keys)), before.avatars, Migrated(job, w, run).avatars)
  {
    UploadsAre(job, w.objects, run, run.keys);
    SameActive(job, keys, before.objects, w.objects);
    ActiveEitherWay(job, keys, w.objects, run);
    ActiveAreAddressable(job, before.objects, Clean(keys));
    RewritePartly(job, ActiveKeys(job, before.objects, Clean(keys)), before.avatars, w.avatars, run,
                  ActiveKeys(job, w.objects, run));
  }

  lemma {:induction false} RunsPartly(job: Job, keys: seq<string>, w: World, runs: seq<Run>)
    requires forall i, k :: 0 <= i < |runs| && k in runs[i].keys ==> k in keys
    ensures PartlyCopied(job, keys, w.objects, MigratedAll(job, w, runs).objects)
    ensures PartlyRewritten(ActiveKeys(job, w.objects, Clean(keys)), w.avatars, MigratedAll(job, w, runs).avatars)
  {
    if runs != [] {
      var n := |runs| - 1;
      RunsPartly(job, keys, w, runs[..n]);
      RunPartly(job, keys, w, MigratedAll(job, w, runs[..n]), runs[n]);
    }
  }

  lemma SameFold(base: string, active: seq<string>, v: string, w: string)
    requires SameOutlook(active, v, w)
    ensures Fold(base, active, w) == Fold(base, active, v)
  {
    if !NoHit(active, v) {
      var k := ShortestExists(active, v);
      FoldForgets(base, active, active, v, w, k);
    }
  }

  /**
   After any runs over the same disk, with any failures, listings and dry runs,
   one clean run reaches just where a single clean run would have.
   */
  lemma Converges(job: Job, keys: seq<string>, w: World, runs: seq<Run>)
    requires forall i, k :: 0 <= i < |runs| && k in runs[i].keys ==> k in keys
    ensures Migrated(job, MigratedAll(job, w, runs), Clean(keys)) == Migrated(job, w, Clean(keys))
  {
    RunsPartly(job, keys, w, runs);
    CleanAgrees(job, keys, w, MigratedAll(job, w, runs));
  }

  /** From worlds that differ only by what runs may have done, a clean run reaches the same. */
  lemma CleanAgrees(job: Job, keys: seq<string>, w: World, t: World)
    requires PartlyCopied(job, keys, w.objects, t.objects)
    requires PartlyRewritten(ActiveKeys(job, w.objects, Clean(keys)), w.avatars, t.avatars)
    ensures Migrated(job, t, Clean(keys)) == Migrated(job, w, Clean(keys))
  {
    SameObjects(job, keys, w.objects, t.objects);
    SameActive(job, keys, w.objects, t.objects);
    var active := ActiveKeys(job, w.objects, Clean(keys));
    ActiveAreAddressable(job, w.objects, Clean(keys));
    RewriteIsFold(job, w.avatars, Clean(keys), active);
    RewriteIsFold(job, t.avatars, Clean(keys), active);
    forall id | id in w.avatars
      ensures Fold(AvatarBase(job), active, t.avatars[id]) == Fold(AvatarBase(job), active, w.avatars[id])
    {
      SameFold(AvatarBase(job), active, w.avatars[id], t.avatars[id]);
    }
    assert Migrated(job, t, Clean(keys)).avatars == Migrated(job, w, Clean(keys)).avatars;
  }

  // ------------------------------------------------------------------- re-runs

  /** A re-run has nothing to copy: what it copied it finds, and the other lists are as they were. */
  lemma RerunLists(job: Job, keys: seq<string>, w: World)
    ensures var before := ReportOf(job, w, Clean(keys));
            var after := ReportOf(job, Migrated(job, w, Clean(keys)), Clean(keys));
            && after.copied == []
            && after.alreadyPresent == WithFate(job, w.objects, Clean(keys), keys, IN_TARGET)
            && after.conflicts == before.conflicts
            && after.unsafe == before.unsafe
            && after.avatarsNotPublic == before.avatarsNotPublic
  {
    RerunList(job, keys, w, {Copied}, {});
    NoneWithFate(job, w.objects, Clean(keys), keys);
    RerunList(job, keys, w, {AlreadyPresent}, IN_TARGET);
    RerunList(job, keys, w, {Conflict}, {Conflict});
    RerunList(job, keys, w, {Unsafe}, {Unsafe});
    RerunList(job, keys, w, IN_TARGET, IN_TARGET);
  }

  lemma RerunList(job: Job, keys: seq<string>, w: World, fates: set<Fate>, fates': set<Fate>)
    requires forall fate :: SecondFate(fate) in fates <==> fate in fates'
    ensures WithFate(job, Migrated(job, w, Clean(keys)).objects, Clean(keys), keys, fates)
         == WithFate(job, w.objects, Clean(keys), keys, fates')
  {
    var t := Migrated(job, w, Clean(keys));
    forall k | k in keys
      ensures FateOf(job, t.objects, Clean(keys), k) in fates <==> FateOf(job, w.objects, Clean(keys), k) in fates'
    {
      RerunFate(job, keys, w, k);
    }
    SameFatesAs(job, t.objects, w.objects, Clean(keys), keys, fates, fates');
  }

  function SecondFate(fate: Fate): Fate {
    if fate == Copied then AlreadyPresent else fate
  }

  lemma RerunFate(job: Job, keys: seq<string>, w: World, k: string)
    requires k in keys
    ensures FateOf(job, Migrated(job, w, Clean(keys)).objects, Clean(keys), k) == SecondFate(FateOf(job, w.objects, Clean(keys), k))
  {
    var t := Migrated(job, w, Clean(keys));
    UploadsAre(job, w.objects, Clean(keys), keys);
    assert PartlyCopied(job, keys, w.objects, t.objects);
    CleanFate(job, keys, w.objects, t.objects, k);
    assert job.Place(k).1 == k;
  }

  lemma NothingMoved(job: Job, keys: seq<string>, w: World)
    ensures PartlyCopied(job, keys, w.objects, w.objects)
    ensures PartlyRewritten(ActiveKeys(job, w.objects, Clean(keys)), w.avatars, w.avatars)
  {
  }

  lemma {:induction false} NoneWithFate(job: Job, objects: Objects, run: Run, keys: seq<string>)
    ensures WithFate(job, objects, run, keys, {}) == []
  {
    if keys != [] {
      NoneWithFate(job, objects, run, keys[..|keys| - 1]);
    }
  }

  lemma {:induction false} SameFatesAs(job: Job, objects: Objects, objects': Objects, run: Run, keys: seq<string>, fates: set<Fate>, fates': set<Fate>)
    requires forall k :: k in keys ==> (FateOf(job, objects, run, k) in fates <==> FateOf(job, objects', run, k) in fates')
    ensures WithFate(job, objects, run, keys, fates) == WithFate(job, objects', run, keys, fates')
  {
    if keys != [] {
      SameFatesAs(job, objects, objects', run, keys[..|keys| - 1], fates, fates');
    }
  }

  ghost predicate AllIdle(base: string, keys: seq<string>, rows: Avatars) {
    forall id :: id in rows ==> Idle(base, keys, rows[id])
  }

  /** A pass updates no row exactly when every stored value is idle. */
  lemma {:induction false} NoUpdatesIffIdle(job: Job, rows: Avatars, run: Run, keys: seq<string>)
    requires Unhindered(run) && AllAddressable(job, keys)
    ensures Sum(Changes(job, rows, run, keys)) == 0 <==> AllIdle(AvatarBase(job), keys, rows)
    ensures AllIdle(AvatarBase(job), keys, rows) ==> RewriteAll(job, rows, run, keys) == rows
  {
    if keys != [] {
      var n := |keys| - 1;
      NoUpdatesIffIdle(job, rows, run, keys[..n]);
      SumOfChanges(job, rows, run, keys);
      IdleStep(AvatarBase(job), keys, rows);
      if AllIdle(AvatarBase(job), keys[..n], rows) {
        IdleTurn(job, rows, run, keys[n]);
      }
    }
  }

  lemma SumOfChanges(job: Job, rows: Avatars, run: Run, keys: seq<string>)
    requires Unhindered(run) && keys != []
    ensures var n := |keys| - 1;
            Sum(Changes(job, rows, run, keys))
            == Sum(Changes(job, rows, run, keys[..n])) + |RowsToMove(job, RewriteAll(job, rows, run, keys[..n]), keys[n])|
  {
    assert Changes(job, rows, run, keys)[..|keys| - 1] == Changes(job, rows, run, keys[..|keys| - 1]);
  }

  lemma IdleStep(base: string, keys: seq<string>, rows: Avatars)
    requires keys != []
    ensures var n := |keys| - 1;
            AllIdle(base, keys, rows) <==>
            AllIdle(base, keys[..n], rows) && forall id :: id in rows ==> !Moves(base, rows[id], keys[n])
  {
    assert forall k :: k in keys <==> k in keys[..|keys| - 1] || k == keys[|keys| - 1];
  }

  lemma IdleTurn(job: Job, rows: Avatars, run: Run, key: string)
    requires Unhindered(run) && Addressable(job, key)
    ensures |RowsToMove(job, rows, key)| == 0 <==> forall id :: id in rows ==> !Moves(AvatarBase(job), rows[id], key)
    ensures |RowsToMove(job, rows, key)| == 0 ==> RewriteKey(job, rows, run, key) == rows
  {
    AvatarUrl(job, key);
    if id :| id in rows && Moves(AvatarBase(job), rows[id], key) {
      assert id in RowsToMove(job, rows, key);
    }
    if RowsToMove(job, rows, key) == {} {
      forall id | id in rows ensures !ToMove(job, rows[id], key) {
        assert id !in RowsToMove(job, rows, key);
      }
    }
  }

  /** A re-run updates no row of any table if and only if the migrated avatar keys are settled. */
  lemma RerunUpdatesNothingIffSettled(job: Job, keys: seq<string>, objects: Objects)
    ensures (forall avatars :: RerunUpdates(job, keys, World(objects, avatars)) == 0)
       <==> Settled(AvatarBase(job), ActiveKeys(job, objects, Clean(keys)))
  {
    var base, active := AvatarBase(job), ActiveKeys(job, objects, Clean(keys));
    forall avatars ensures RerunUpdates(job, keys, World(objects, avatars)) == 0 <==> AllIdleAfter(base, active, avatars) {
      RerunCounts(job, keys, World(objects, avatars));
    }
    TablesOfValues(base, active);
    IdleIffSettled(base, active);
  }

  ghost predicate AllIdleAfter(base: string, keys: seq<string>, rows: Avatars) {
    forall id :: id in rows ==> IdleAfter(base, keys, rows[id])
  }

  lemma TablesOfValues(base: string, keys: seq<string>)
    ensures (forall rows :: AllIdleAfter(base, keys, rows)) <==> (forall v :: IdleAfter(base, keys, v))
  {
    forall v ensures AllIdleAfter(base, keys, map[0 := v]) <==> IdleAfter(base, keys, v) {
      assert map[0 := v][0] == v;
    }
  }

  function RerunUpdates(job: Job, keys: seq<string>, w: World): nat {
    ReportOf(job, Migrated(job, w, Clean(keys)), Clean(keys)).avatarRowsUpdated
  }

  lemma RerunCounts(job: Job, keys: seq<string>, w: World)
    ensures var base, active := AvatarBase(job), ActiveKeys(job, w.objects, Clean(keys));
            RerunUpdates(job, keys, w) == 0 <==> AllIdleAfter(base, active, w.avatars)
  {
    var run, t := Clean(keys), Migrated(job, w, Clean(keys));
    var active := ActiveKeys(job, w.objects, run);
    NothingMoved(job, keys, w);
    RunPartly(job, keys, w, w, run);
    SameActive(job, keys, w.objects, t.objects);
    ActiveAreAddressable(job, w.objects, run);
    RewriteIsFold(job, w.avatars, run, active);
    NoUpdatesIffIdle(job, t.avatars, run, active);
  }

  /** In particular when no migrated avatar key is a tail of another. */
  lemma RerunUpdatesNothing(job: Job, keys: seq<string>, w: World)
    requires forall k, l :: k in keys && l in keys && Tail(k, l) ==> k == l
    ensures RerunUpdates(job, keys, w) == 0
    ensures Migrated(job, Migrated(job, w, Clean(keys)), Clean(keys)) == Migrated(job, w, Clean(keys))
  {
    var active := ActiveKeys(job, w.objects, Clean(keys));
    ActiveMembers(job, w.objects, Clean(keys));
    DisjointKeysSettle(AvatarBase(job), active);
    RerunUpdatesNothingIffSettled(job, keys, w.objects);
    assert RerunUpdates(job, keys, World(w.objects, w.avatars)) == 0;
    Converges(job, keys, w, [Clean(keys)]);
    assert [Clean(keys)][..0] == [];
    assert MigratedAll(job, w, [Clean(keys)]) == Migrated(job, w, Clean(keys));
  }

  // ------------------------------------------------------------------- dry runs

  function Dry(keys: seq<string>): Run {
    Run(NO_FAULTS, true, keys)
  }

  /** The lists of a dry run are those of the real run. */
  lemma DryRunLists(job: Job, keys: seq<string>, w: World)
    ensures var dry, live := ReportOf(job, w, Dry(keys)), ReportOf(job, w, Clean(keys));
            && dry.copied == live.copied && dry.alreadyPresent == live.alreadyPresent
            && dry.conflicts == live.conflicts && dry.unsafe == live.unsafe && dry.failed == live.failed
            && dry.avatarsNotPublic == live.avatarsNotPublic
            && ActiveKeys(job, w.objects, Dry(keys)) == ActiveKeys(job, w.objects, Clean(keys))
  {
    forall k ensures FateOf(job, w.objects, Dry(keys), k) == FateOf(job, w.objects, Clean(keys), k) {
    }
    SameFates(job, w.objects, Dry(keys), w.objects, Clean(keys), keys, {Copied});
    SameFates(job, w.objects, Dry(keys), w.objects, Clean(keys), keys, {AlreadyPresent});
    SameFates(job, w.objects, Dry(keys), w.objects, Clean(keys), keys, {Conflict});
    SameFates(job, w.objects, Dry(keys), w.objects, Clean(keys), keys, {Unsafe});
    SameFates(job, w.objects, Dry(keys), w.objects, Clean(keys), keys, {Failed});
    SameFates(job, w.objects, Dry(keys), w.objects, Clean(keys), keys, IN_TARGET);
    NoFailedRewrites(job, w.avatars, Dry(keys), ActiveKeys(job, w.objects, Dry(keys)));
    NoFailedRewrites(job, w.avatars, Clean(keys), ActiveKeys(job, w.objects, Clean(keys)));
  }

  lemma {:induction false} NoFailedRewrites(job: Job, rows: Avatars, run: Run, keys: seq<string>)
    requires run.faults == NO_FAULTS
    ensures FailedRewrites(job, rows, run, keys) == []
  {
    if keys != [] {
      NoFailedRewrites(job, rows, run, keys[..|keys| - 1]);
    }
  }

  lemma {:induction false} LastChange(job: Job, rows: Avatars, run: Run, keys: seq<string>)
    requires run.faults == NO_FAULTS && keys != []
    ensures var n := |keys| - 1;
            Changes(job, rows, run, keys)
            == Changes(job, rows, run, keys[..n]) + [|RowsToMove(job, RewriteAll(job, rows, run, keys[..n]), keys[n])|]
  {
    assert !RewriteFails(job, RewriteAll(job, rows, run, keys[..|keys| - 1]), run, keys[|keys| - 1]);
  }

  lemma {:induction false} ChangesAt(job: Job, rows: Avatars, run: Run, keys: seq<string>, j: nat)
    requires run.faults == NO_FAULTS && j < |keys|
    ensures Changes(job, rows, run, keys)[j] == |RowsToMove(job, RewriteAll(job, rows, run, keys[..j]), keys[j])|
  {
    var n := |keys| - 1;
    var init, last := Changes(job, rows, run, keys[..n]), |RowsToMove(job, RewriteAll(job, rows, run, keys[..n]), keys[n])|;
    LastChange(job, rows, run, keys);
    assert (init + [last])[n] == last;
    if j < n {
      ChangesAt(job, rows, run, keys[..n], j);
      assert (init + [last])[j] == init[j];
      assert keys[..n][..j] == keys[..j] && keys[..n][j] == keys[j];
    }
  }

  /** The rows whose value, folded over `keys`, the next key moves. */
  function MovedAfter(base: string, rows: Avatars, keys: seq<string>, next: string): set<nat> {
    set id | id in rows && Moves(base, Fold(base, keys, rows[id]), next)
  }

  /** Key by key the dry run counts the rows it would move as they stand, the real run those it moves by then. */
  lemma DryTurn(job: Job, rows: Avatars, keys: seq<string>, listed: seq<string>, j: nat)
    requires AllAddressable(job, keys) && j < |keys|
    ensures Changes(job, rows, Dry(listed), keys)[j] == |MovedAfter(AvatarBase(job), rows, [], keys[j])|
  {
    ChangesAt(job, rows, Dry(listed), keys, j);
    DryLeavesRows(job, rows, Dry(listed), keys[..j]);
    AvatarUrl(job, keys[j]);
    assert RowsToMove(job, rows, keys[j]) == MovedAfter(AvatarBase(job), rows, [], keys[j]);
  }

  lemma RealTurn(job: Job, rows: Avatars, keys: seq<string>, listed: seq<string>, j: nat)
    requires AllAddressable(job, keys) && j < |keys|
    ensures Changes(job, rows, Clean(listed), keys)[j] == |MovedAfter(AvatarBase(job), rows, keys[..j], keys[j])|
  {
    ChangesAt(job, rows, Clean(listed), keys, j);
    RewriteIsFold(job, rows, Clean(listed), keys[..j]);
    AvatarUrl(job, keys[j]);
    assert RowsToMove(job, RewriteAll(job, rows, Clean(listed), keys[..j]), keys[j])
        == MovedAfter(AvatarBase(job), rows, keys[..j], keys[j]);
  }

  /** Whatever the avatar rows, a dry run and a clean run report the same. */
  ghost predicate Foretells(job: Job, keys: seq<string>, objects: Objects) {
    forall avatars :: ReportOf(job, World(objects, avatars), Dry(keys)) == ReportOf(job, World(objects, avatars), Clean(keys))
  }

  /** For every table of rows the dry run foretells the whole report if and only if no migrated avatar key hits the URL of a later one. */
  lemma DryRunForetellsIffOrdered(job: Job, keys: seq<string>, objects: Objects)
    requires Distinct(keys)
    ensures Foretells(job, keys, objects) <==> Ordered(AvatarBase(job), ActiveKeys(job, objects, Clean(keys)))
  {
    var base, active := AvatarBase(job), ActiveKeys(job, objects, Clean(keys));
    ActiveAreAddressable(job, objects, Clean(keys));
    ActiveDistinct(job, objects, Clean(keys));
    if Ordered(base, active) {
      OrderedPredicts(base, active);
      forall avatars
        ensures ReportOf(job, World(objects, avatars), Dry(keys)) == ReportOf(job, World(objects, avatars), Clean(keys))
      {
        PredictedCounts(job, keys, active, avatars);
        DryRunLists(job, keys, World(objects, avatars));
      }
    } else {
      var i, j :| 0 <= i < j < |active| && Hits(Url(base, active[j]), active[i]);
      var v := Miscounts(base, active, i, j);
      OneRowCounts(job, keys, v, active);
      DryRunLists(job, keys, World(objects, map[0 := v]));
      assert ReportOf(job, World(objects, map[0 := v]), Dry(keys)) != ReportOf(job, World(objects, map[0 := v]), Clean(keys));
    }
  }

  /** A table of one row is counted turn by turn. */
  lemma {:induction false} OneRowCounts(job: Job, listed: seq<string>, v: string, keys: seq<string>)
    requires AllAddressable(job, keys)
    ensures Sum(Changes(job, map[0 := v], Dry(listed), keys)) == Turns(AvatarBase(job), keys, v, false)
    ensures Sum(Changes(job, map[0 := v], Clean(listed), keys)) == Turns(AvatarBase(job), keys, v, true)
  {
    if keys != [] {
      var n := |keys| - 1;
      OneRowCounts(job, listed, v, keys[..n]);
      DryTurn(job, map[0 := v], keys, listed, n);
      RealTurn(job, map[0 := v], keys, listed, n);
      OneRow(AvatarBase(job), v, [], keys[n]);
      OneRow(AvatarBase(job), v, keys[..n], keys[n]);
      assert Changes(job, map[0 := v], Dry(listed), keys)[..n] == Changes(job, map[0 := v], Dry(listed), keys[..n]);
      assert Changes(job, map[0 := v], Clean(listed), keys)[..n] == Changes(job, map[0 := v], Clean(listed), keys[..n]);
    }
  }

  lemma OneRow(base: string, v: string, keys: seq<string>, next: string)
    ensures |MovedAfter(base, map[0 := v], keys, next)| == if Moves(base, Fold(base, keys, v), next) then 1 else 0
  {
    assert MovedAfter(base, map[0 := v], keys, next) == if Moves(base, Fold(base, keys, v), next) then {0} else {};
  }

  lemma PredictedCounts(job: Job, keys: seq<string>, active: seq<string>, avatars: Avatars)
    requires AllAddressable(job, active) && Predicts(AvatarBase(job), active)
    ensures Changes(job, avatars, Dry(keys), active) == Changes(job, avatars, Clean(keys), active)
  {
    forall j | 0 <= j < |active|
      ensures Changes(job, avatars, Dry(keys), active)[j] == Changes(job, avatars, Clean(keys), active)[j]
    {
      DryTurn(job, avatars, active, keys, j);
      RealTurn(job, avatars, active, keys, j);
      assert MovedAfter(AvatarBase(job), avatars, [], active[j]) == MovedAfter(AvatarBase(job), avatars, active[..j], active[j]);
    }
  }

  /** With keys of which none is a tail of another, the whole report is foretold, and nothing is written. */
  lemma DryRunIsTheReport(job: Job, keys: seq<string>, w: World)
    requires Distinct(keys) && forall k, l :: k in keys && l in keys && Tail(k, l) ==> k == l
    ensures ReportOf(job, w, Dry(keys)) == ReportOf(job, w, Clean(keys))
    ensures Migrated(job, w, Dry(keys)) == w
  {
    var active := ActiveKeys(job, w.objects, Clean(keys));
    ActiveDistinct(job, w.objects, Clean(keys));
    ActiveMembers(job, w.objects, Clean(keys));
    DisjointKeysAreOrdered(AvatarBase(job), active);
    DryRunForetellsIffOrdered(job, keys, w.objects);
    assert World(w.objects, w.avatars) == w;
    ObjectsOnlyAdded(job, w, Dry(keys));
  }

  lemma ActiveDistinct(job: Job, objects: Objects, run: Run)
    requires Distinct(run.keys)
    ensures Distinct(ActiveKeys(job, objects, run))
  {
    FatesDistinct(job, objects, run, run.keys, IN_TARGET);
    AvatarsDistinct(job, WithFate(job, objects, run, run.keys, IN_TARGET), true);
  }

  lemma {:induction false} FatesDistinct(job: Job, objects: Objects, run: Run, keys: seq<string>, fates: set<Fate>)
    requires Distinct(keys)
    ensures Distinct(WithFate(job, objects, run, keys, fates))
  {
    if keys != [] {
      var n := |keys| - 1;
      FatesDistinct(job, objects, run, keys[..n], fates);
      FateMembers(job, objects, run, keys[..n], fates);
      assert keys[n] !in keys[..n];
    }
  }

  lemma {:induction false} AvatarsDistinct(job: Job, keys: seq<string>, readable: bool)
    requires Distinct(keys)
    ensures Distinct(AvatarKeys(job, keys, readable))
  {
    if keys != [] {
      var n := |keys| - 1;
      AvatarsDistinct(job, keys[..n], readable);
      AvatarMembers(job, keys[..n], readable);
      assert keys[n] !in keys[..n];
    }
  }
}
