/** What each list of a report holds, and that only rows of keys that really are in place are repointed. */
module MigrationReports {
  import opened StorageKeys
  import opened Migration
  import opened MigrationTheorems
  import opened BusyMigration

  /** The key gets as far as the bucket. */
  predicate Sized(job: Job, run: Run, key: string) {
    key in run.keys && SafeKey(key) && key !in run.faults.head && key in job.disk
  }

  /** An object of the file's size is in the key's bucket. */
  predicate InPlace(job: Job, objects: Objects, key: string) {
    && key in job.disk
    && (job.provider.BucketFor(key), key) in objects
    && |objects[(job.provider.BucketFor(key), key)]| == |job.disk[key]|
  }

  predicate Absent(job: Job, objects: Objects, key: string) {
    (job.provider.BucketFor(key), key) !in objects
  }

  predicate Readable(run: Run, key: string) {
    key !in run.faults.read && (run.dryRun || key !in run.faults.upload)
  }

  /** A conflict is an object of another size, no more and no less. */
  lemma ConflictsExactly(job: Job, w: World, run: Run, k: string)
    ensures k in ReportOf(job, w, run).conflicts
       <==> Sized(job, run, k) && !Absent(job, w.objects, k) && !InPlace(job, w.objects, k)
  {
    FateMembers(job, w.objects, run, run.keys, {Conflict});
  }

  lemma PresentExactly(job: Job, w: World, run: Run, k: string)
    ensures k in ReportOf(job, w, run).alreadyPresent <==> Sized(job, run, k) && InPlace(job, w.objects, k)
  {
    FateMembers(job, w.objects, run, run.keys, {AlreadyPresent});
  }

  lemma CopiedExactly(job: Job, w: World, run: Run, k: string)
    ensures k in ReportOf(job, w, run).copied <==> Sized(job, run, k) && Absent(job, w.objects, k) && Readable(run, k)
  {
    FateMembers(job, w.objects, run, run.keys, {Copied});
  }

  lemma UnsafeExactly(job: Job, w: World, run: Run, k: string)
    ensures k in ReportOf(job, w, run).unsafe <==> k in run.keys && !SafeKey(k)
  {
    FateMembers(job, w.objects, run, run.keys, {Unsafe});
  }

  /** A failure is of the file, the bucket, the copy, or of the rewrite of rows that follows. */
  lemma FailedExactly(job: Job, w: World, run: Run, k: string)
    ensures k in ReportOf(job, w, run).failed <==>
              || (k in run.keys && SafeKey(k) && !Sized(job, run, k))
              || (Sized(job, run, k) && Absent(job, w.objects, k) && !Readable(run, k))
              || k in FailedRewrites(job, w.avatars, run, ActiveKeys(job, w.objects, run))
  {
    FateMembers(job, w.objects, run, run.keys, {Failed});
  }

  /** An address that resolves without a signature: by a public base, or in the public bucket. */
  predicate Public(p: Provider, key: string) {
    || (p.publicBaseUrl.Some? && p.publicBaseUrl.value != "")
    || (p.publicBucket.Some? && p.BucketFor(key) == p.publicBucket.value)
  }

  predicate IsAvatar(key: string) {
    key == "avatars" || "avatars/" <= key
  }

  lemma AvatarByPrefix(job: Job, key: string)
    ensures job.IsAvatarKey(key) <==> IsAvatar(key)
  {
    if IsAvatar(key) {
      if key == "avatars" {
        SplitNone(key, '/');
      } else {
        SplitHead("avatars", '/', key[8..]);
        assert key == "avatars" + ['/'] + key[8..];
      }
    }
    if job.IsAvatarKey(key) {
      HeadOf(key);
    }
  }

  /** A string is its first segment, or goes on with a slash. */
  lemma HeadOf(key: string)
    requires FirstSegment(key) == "avatars"
    ensures IsAvatar(key)
  {
    HeadIsPrefix(key, '/');
    if |key| > 7 {
      assert key[..8] == key[..7] + [key[7]] == "avatars/";
    }
  }

  lemma {:induction false} HeadIsPrefix(s: string, sep: char)
    ensures var head := Split(s, sep)[0]; head <= s && (|s| > |head| ==> s[|head|] == sep)
  {
    if s != "" {
      HeadIsPrefix(s[1..], sep);
    }
  }

  lemma NotPublicExactly(job: Job, w: World, run: Run, k: string)
    ensures k in ReportOf(job, w, run).avatarsNotPublic <==>
              && (k in ReportOf(job, w, run).copied || k in ReportOf(job, w, run).alreadyPresent)
              && IsAvatar(k) && !Public(job.provider, k)
  {
    FateMembers(job, w.objects, run, run.keys, IN_TARGET);
    FateMembers(job, w.objects, run, run.keys, {Copied});
    FateMembers(job, w.objects, run, run.keys, {AlreadyPresent});
    AvatarMembers(job, WithFate(job, w.objects, run, run.keys, IN_TARGET), false);
    AvatarByPrefix(job, k);
  }

  /** After a real run every key reported copied or present is in place. */
  lemma ReportedIsInPlace(job: Job, w: World, run: Run, k: string)
    requires !run.dryRun
    requires k in ReportOf(job, w, run).copied || k in ReportOf(job, w, run).alreadyPresent
    ensures InPlace(job, Migrated(job, w, run).objects, k)
  {
    CopiedExactly(job, w, run, k);
    PresentExactly(job, w, run, k);
    ObjectsOnlyAdded(job, w, run);
    assert (job.provider.BucketFor(k), k).1 == k;
  }

  lemma NothingRead(rows: Avatars, url: string)
    ensures CompareAndSet(rows, map[], url) == rows && StillEqual(rows, map[]) == {}
  {
  }

  /** A turn whose query or update fails changes nothing and counts nothing. */
  lemma FailureChangesNothing(job: Job, rows: Avatars, run: Run, key: string, others: Others)
    requires key in run.faults.find || (!run.dryRun && key in run.faults.update)
    ensures RepointBeside(job, rows, run, key, others) == Standing(rows, others, key)
    ensures ChangedBeside(job, rows, run, key, others) == 0
  {
    var seen := Seen(rows, others, key);
    if !RewriteFails(job, seen, run, key) {
      UndisturbedRepoint(job, seen, key);
      assert ReadFor(job, seen, key) == map[];
      NothingRead(Standing(rows, others, key), job.provider.GetUrl(key));
    }
  }

  /** The compare-and-set changes just the rows that still hold the value read. */
  lemma UpdateChanges(rows: Avatars, read: Avatars, url: string)
    requires forall id :: id in read ==> read[id] != url
    ensures CompareAndSet(rows, read, url).Keys == rows.Keys
    ensures StillEqual(rows, read) == set id | id in rows && CompareAndSet(rows, read, url)[id] != rows[id]
  {
  }

  function Changed(before: Avatars, after: Avatars): set<nat> {
    set id | id in before && id in after && after[id] != before[id]
  }

  lemma ReadDiffers(job: Job, seen: Avatars, key: string)
    ensures forall id :: id in ReadFor(job, seen, key) ==> ReadFor(job, seen, key)[id] != job.provider.GetUrl(key)
  {
  }

  /** A turn of a real run counts just the rows whose value it changes. */
  lemma CountsWhatItChanges(job: Job, rows: Avatars, run: Run, key: string, others: Others)
    requires !run.dryRun
    ensures ChangedBeside(job, rows, run, key, others)
         == |Changed(Standing(rows, others, key), RepointBeside(job, rows, run, key, others))|
  {
    var seen, standing := Seen(rows, others, key), Standing(rows, others, key);
    if RewriteFails(job, seen, run, key) {
      assert Changed(standing, standing) == {};
    } else {
      var read, url := ReadFor(job, seen, key), job.provider.GetUrl(key);
      ReadDiffers(job, seen, key);
      UpdateChanges(standing, read, url);
      assert Changed(standing, CompareAndSet(standing, read, url)) == StillEqual(standing, read);
    }
  }

  /** The keys whose rows are repointed: avatars, in place, at an address that resolves. */
  lemma ActiveExactly(job: Job, w: World, run: Run, k: string)
    ensures k in ActiveKeys(job, w.objects, run) <==>
              && (k in ReportOf(job, w, run).copied || k in ReportOf(job, w, run).alreadyPresent)
              && IsAvatar(k) && Public(job.provider, k)
  {
    ActiveMembers(job, w.objects, run);
    FateMembers(job, w.objects, run, run.keys, {Copied});
    FateMembers(job, w.objects, run, run.keys, {AlreadyPresent});
    AvatarByPrefix(job, k);
  }

  /**
   Beside any writers, a real run leaves each row as it was last written, or at the
   new URL of an avatar that is in place after it, at an address that resolves.
   */
  lemma OnlyToWhatIsThere(job: Job, w: World, run: Run, others: Others, id: nat)
    requires !run.dryRun && id in MigratedBeside(job, w, run, others).avatars
    ensures var t := MigratedBeside(job, w, run, others);
            var written := LastWritten(w.avatars, ActiveKeys(job, w.objects, run), others);
            && id in written
            && (t.avatars[id] == written[id]
                || exists k :: IsAvatar(k) && Public(job.provider, k) && InPlace(job, t.objects, k) && t.avatars[id] == job.provider.GetUrl(k))
  {
    var active := ActiveKeys(job, w.objects, run);
    ActiveAreAddressable(job, w.objects, run);
    RewriteKeepsOrLands(job, active, w.avatars, w.avatars, run, active, others);
    var written, rows := LastWritten(w.avatars, active, others), MigratedBeside(job, w, run, others).avatars;
    assert Lands(job, active, written[id], rows[id]);
    if rows[id] != written[id] {
      var k :| k in active && rows[id] == job.provider.GetUrl(k);
      ActiveExactly(job, w, run, k);
      ReportedIsInPlace(job, w, run, k);
    }
  }

  // ---------------------------------------------------------------- the query

  /** SQL's LIKE: `_` is any one character, `%` any run of them. */
  predicate Like(value: string, pattern: string)
    decreases |pattern|, |value|
  {
    if pattern == "" then value == ""
    else if pattern[0] == '%' then Like(value, pattern[1..]) || (value != "" && Like(value[1..], pattern))
    else value != "" && (pattern[0] == '_' || pattern[0] == value[0]) && Like(value[1..], pattern[1..])
  }

  lemma {:induction false} LikeInFull(value: string, pattern: string)
    requires '%' !in pattern
    ensures Like(value, pattern) <==> |value| == |pattern| && LikeEndsWith(value, pattern)
  {
    if pattern != "" && value != "" {
      LikeInFull(value[1..], pattern[1..]);
      var rest, tail := value[1..], pattern[1..];
      if |value| == |pattern| && LikeEndsWith(rest, tail) && (pattern[0] == '_' || pattern[0] == value[0]) {
        assert forall i :: 0 < i < |pattern| ==> pattern[i] == tail[i - 1] && value[i] == rest[i - 1];
      }
      if |value| == |pattern| && LikeEndsWith(value, pattern) {
        assert forall i :: 0 <= i < |tail| ==> tail[i] == pattern[i + 1] && rest[i] == value[i + 1];
      }
    }
  }

  lemma {:induction false} LikeAtTheEnd(value: string, suffix: string)
    requires '%' !in suffix
    ensures Like(value, ['%'] + suffix) <==> LikeEndsWith(value, suffix)
    decreases |value|
  {
    assert (['%'] + suffix)[1..] == suffix;
    LikeInFull(value, suffix);
    if value != "" {
      LikeAtTheEnd(value[1..], suffix);
    }
  }

  /** The query for a safe key returns just the rows like `%/key`, as they are. */
  lemma QueryIsLike(rows: Avatars, key: string, id: nat)
    requires SafeKey(key)
    ensures id in FindLike(rows, "/" + key) <==> id in rows && Like(rows[id], "%/" + key)
    ensures id in FindLike(rows, "/" + key) ==> FindLike(rows, "/" + key)[id] == rows[id]
  {
    if id in rows {
      assert "%/" + key == ['%'] + ("/" + key);
      LikeAtTheEnd(rows[id], "/" + key);
    }
  }

  // ------------------------------------------------------------- failed turns

  /** A dry run's turn fails with its query alone; a real one also with its update, if there is a row to point elsewhere. */
  lemma TurnFailsExactly(job: Job, rows: Avatars, run: Run, key: string)
    ensures run.dryRun ==> (RewriteFails(job, rows, run, key) <==> key in run.faults.find)
    ensures !run.dryRun ==>
              (RewriteFails(job, rows, run, key) <==>
               key in run.faults.find
               || (key in run.faults.update
                   && exists id :: id in rows && EndsWith(rows[id], "/" + key) && rows[id] != job.provider.GetUrl(key)))
  {
    if !run.dryRun && key in run.faults.update {
      var moving := RowsToMove(job, rows, key);
      if moving != {} {
        var id :| id in moving;
        assert id in rows && EndsWith(rows[id], "/" + key) && rows[id] != job.provider.GetUrl(key);
      }
      if id :| id in rows && EndsWith(rows[id], "/" + key) && rows[id] != job.provider.GetUrl(key) {
        assert id in moving;
      }
    }
  }

  lemma {:induction false} FailedMembers(job: Job, rows: Avatars, run: Run, keys: seq<string>, k: string)
    requires run.dryRun
    ensures k in FailedRewrites(job, rows, run, keys) <==> k in keys && k in run.faults.find
  {
    if keys != [] {
      var n := |keys| - 1;
      FailedMembers(job, rows, run, keys[..n], k);
      TurnFailsExactly(job, RewriteAll(job, rows, run, keys[..n]), run, keys[n]);
      assert k in keys <==> k in keys[..n] || k == keys[n];
    }
  }

  /** A dry run reports every failure it can meet, and those of no write. */
  lemma DryFailuresExactly(job: Job, w: World, run: Run, k: string)
    requires run.dryRun
    ensures k in ReportOf(job, w, run).failed <==>
              || (k in run.keys && SafeKey(k) && (k in run.faults.head || k !in job.disk))
              || (Sized(job, run, k) && Absent(job, w.objects, k) && k in run.faults.read)
              || (k in ActiveKeys(job, w.objects, run) && k in run.faults.find)
  {
    FailedExactly(job, w, run, k);
    FailedMembers(job, w.avatars, run, ActiveKeys(job, w.objects, run), k);
  }
}
