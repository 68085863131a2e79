/**
 The migration beside other writers of the avatar rows: users who change their
 picture, or link an account, between a key's query and its update.
 */
module BusyMigration {
  import opened AvatarRewrites
  import opened Migration
  import opened MigrationTheorems

  /** What others write to the rows before a key's query, and between its query and its update. */
  datatype Writes = Writes(before: Avatars, between: Avatars)

  type Others = string -> Writes

  /** The rows as the query of the key finds them, and as its update does. */
  function Seen(rows: Avatars, others: Others, key: string): Avatars {
    rows + others(key).before
  }

  function Standing(rows: Avatars, others: Others, key: string): Avatars {
    Seen(rows, others, key) + others(key).between
  }

  /** The candidates of a query, re-checked. */
  function ReadFor(job: Job, seen: Avatars, key: string): Avatars {
    Rechecked(job, FindLike(seen, "/" + key), key)
  }

  function RepointBeside(job: Job, rows: Avatars, run: Run, key: string, others: Others): Avatars {
    var seen, standing := Seen(rows, others, key), Standing(rows, others, key);
    if run.dryRun || RewriteFails(job, seen, run, key) then standing
    else CompareAndSet(standing, ReadFor(job, seen, key), job.provider.GetUrl(key))
  }

  function ChangedBeside(job: Job, rows: Avatars, run: Run, key: string, others: Others): nat {
    var seen, standing := Seen(rows, others, key), Standing(rows, others, key);
    if RewriteFails(job, seen, run, key) then 0
    else if run.dryRun then |ReadFor(job, seen, key)|
    else |StillEqual(standing, ReadFor(job, seen, key))|
  }

  function RewriteBeside(job: Job, rows: Avatars, run: Run, keys: seq<string>, others: Others): Avatars {
    if keys == [] then rows
    else
      var n := |keys| - 1;
      RepointBeside(job, RewriteBeside(job, rows, run, keys[..n], others), run, keys[n], others)
  }

  function ChangesBeside(job: Job, rows: Avatars, run: Run, keys: seq<string>, others: Others): nat {
    if keys == [] then 0
    else
      var n := |keys| - 1;
      ChangesBeside(job, rows, run, keys[..n], others)
      + ChangedBeside(job, RewriteBeside(job, rows, run, keys[..n], others), run, keys[n], others)
  }

  function FailedBeside(job: Job, rows: Avatars, run: Run, keys: seq<string>, others: Others): seq<string> {
    if keys == [] then []
    else
      var n := |keys| - 1;
      var seen := Seen(RewriteBeside(job, rows, run, keys[..n], others), others, keys[n]);
      FailedBeside(job, rows, run, keys[..n], others) + if RewriteFails(job, seen, run, keys[n]) then [keys[n]] else []
  }

  function MigratedBeside(job: Job, w: World, run: Run, others: Others): World {
    World(w.objects + Uploads(job, w.objects, run, run.keys),
          RewriteBeside(job, w.avatars, run, ActiveKeys(job, w.objects, run), others))
  }

  function ReportBeside(job: Job, w: World, run: Run, others: Others): Report {
    var active := ActiveKeys(job, w.objects, run);
    ReportOf(job, w, run).(
      failed := WithFate(job, w.objects, run, run.keys, {Failed}) + FailedBeside(job, w.avatars, run, active, others),
      avatarRowsUpdated := ChangesBeside(job, w.avatars, run, active, others))
  }

  // ------------------------------------------------------------ with no one beside

  ghost predicate Alone(others: Others) {
    forall key :: others(key) == Writes(map[], map[])
  }

  /** With nothing changed in between, the re-checked LIKE matches are the rows to move. */
  lemma UndisturbedRepoint(job: Job, rows: Avatars, key: string)
    ensures var read := ReadFor(job, rows, key);
            && read.Keys == RowsToMove(job, rows, key) && |read| == |RowsToMove(job, rows, key)|
            && (read == map[] <==> RowsToMove(job, rows, key) == {})
            && StillEqual(rows, read) == RowsToMove(job, rows, key)
            && CompareAndSet(rows, read, job.provider.GetUrl(key))
               == map id | id in rows :: if ToMove(job, rows[id], key) then job.provider.GetUrl(key) else rows[id]
  {
    var read := ReadFor(job, rows, key);
    assert read.Keys == RowsToMove(job, rows, key);
    assert StillEqual(rows, read) == RowsToMove(job, rows, key);
    if read == map[] {
      assert read.Keys == {};
    } else {
      assert |read.Keys| == |read|;
    }
  }

  lemma {:induction false} AloneRewrites(job: Job, rows: Avatars, run: Run, keys: seq<string>, others: Others)
    requires Alone(others)
    ensures RewriteBeside(job, rows, run, keys, others) == RewriteAll(job, rows, run, keys)
    ensures ChangesBeside(job, rows, run, keys, others) == Sum(Changes(job, rows, run, keys))
    ensures FailedBeside(job, rows, run, keys, others) == FailedRewrites(job, rows, run, keys)
  {
    if keys != [] {
      var n := |keys| - 1;
      var before := RewriteAll(job, rows, run, keys[..n]);
      AloneRewrites(job, rows, run, keys[..n], others);
      AloneTurn(job, before, run, keys[n], others);
      assert Changes(job, rows, run, keys)[..n] == Changes(job, rows, run, keys[..n]);
    }
  }

  lemma AloneTurn(job: Job, rows: Avatars, run: Run, key: string, others: Others)
    requires Alone(others)
    ensures Seen(rows, others, key) == rows
    ensures RepointBeside(job, rows, run, key, others) == RewriteKey(job, rows, run, key)
    ensures ChangedBeside(job, rows, run, key, others) == if RewriteFails(job, rows, run, key) then 0 else |RowsToMove(job, rows, key)|
  {
    assert others(key) == Writes(map[], map[]);
    assert Seen(rows, others, key) == rows && Standing(rows, others, key) == rows;
    UndisturbedRepoint(job, rows, key);
  }

  /** Then the run is the run of the theorems. */
  lemma AloneIsTheRun(job: Job, w: World, run: Run, others: Others)
    requires Alone(others)
    ensures MigratedBeside(job, w, run, others) == Migrated(job, w, run)
    ensures ReportBeside(job, w, run, others) == ReportOf(job, w, run)
  {
    AloneRewrites(job, w.avatars, run, ActiveKeys(job, w.objects, run), others);
  }

  // ------------------------------------------------------------- no write is lost

  /** The rows with the last value anyone but the migration wrote to each. */
  function LastWritten(rows: Avatars, keys: seq<string>, others: Others): Avatars {
    if keys == [] then rows
    else Standing(LastWritten(rows, keys[..|keys| - 1], others), others, keys[|keys| - 1])
  }

  /** The value is the one last written, or the URL of a migrated key. */
  predicate Lands(job: Job, active: seq<string>, written: string, value: string) {
    value == written || exists k :: k in active && value == job.provider.GetUrl(k)
  }

  /** What a run may have made of the rows: each stands where it was last written or landed on a key's URL, and keeps its shortest hit. */
  ghost predicate KeptOrLanded(job: Job, active: seq<string>, written: Avatars, rows: Avatars) {
    PartlyRewritten(active, written, rows) && forall id :: id in written ==> Lands(job, active, written[id], rows[id])
  }

  /** Others' writes replace both the value last written and the value. */
  lemma OthersWrite(job: Job, active: seq<string>, written: Avatars, rows: Avatars, more: Avatars)
    requires KeptOrLanded(job, active, written, rows)
    ensures KeptOrLanded(job, active, written + more, rows + more)
  {
    forall id | id in written + more ensures SameOutlook(active, (written + more)[id], (rows + more)[id]) {
      if id !in more {
        assert SameOutlook(active, written[id], rows[id]);
      }
    }
  }

  /** The compare-and-set turns only values that still are the ones read. */
  lemma UpdateTurns(job: Job, active: seq<string>, written: Avatars, seen: Avatars, rows: Avatars, key: string)
    requires AllAddressable(job, active) && key in active && KeptOrLanded(job, active, written, rows)
    ensures KeptOrLanded(job, active, written, CompareAndSet(rows, ReadFor(job, seen, key), job.provider.GetUrl(key)))
  {
    var after := CompareAndSet(rows, ReadFor(job, seen, key), job.provider.GetUrl(key));
    AvatarUrl(job, key);
    forall id | id in written
      ensures SameOutlook(active, written[id], after[id]) && Lands(job, active, written[id], after[id])
    {
      assert SameOutlook(active, written[id], rows[id]) && Lands(job, active, written[id], rows[id]);
      if after[id] != rows[id] {
        assert after[id] == Turn(AvatarBase(job), rows[id], key);
        forall k | IsShortest(active, written[id], k) ensures IsShortest(active, after[id], k) {
          TurnKeepsShortest(AvatarBase(job), active, rows[id], key, k);
        }
      }
    }
  }

  lemma {:induction false} RewriteKeepsOrLands(job: Job, active: seq<string>, written: Avatars, rows: Avatars, run: Run,
                                              keys: seq<string>, others: Others)
    requires AllAddressable(job, active) && forall k :: k in keys ==> k in active
    requires KeptOrLanded(job, active, written, rows)
    ensures KeptOrLanded(job, active, LastWritten(written, keys, others), RewriteBeside(job, rows, run, keys, others))
  {
    if keys != [] {
      var n := |keys| - 1;
      var written', rows' := LastWritten(written, keys[..n], others), RewriteBeside(job, rows, run, keys[..n], others);
      RewriteKeepsOrLands(job, active, written, rows, run, keys[..n], others);
      OthersWrite(job, active, written', rows', others(keys[n]).before);
      OthersWrite(job, active, Seen(written', others, keys[n]), Seen(rows', others, keys[n]), others(keys[n]).between);
      UpdateTurns(job, active, Standing(written', others, keys[n]), Seen(rows', others, keys[n]),
                  Standing(rows', others, keys[n]), keys[n]);
    }
  }

  // ------------------------------------------------------------------ many busy runs

  datatype Busy = Busy(run: Run, others: Others)

  function MigratedBesideAll(job: Job, w: World, runs: seq<Busy>): World {
    if runs == [] then w
    else MigratedBeside(job, MigratedBesideAll(job, w, runs[..|runs| - 1]), runs[|runs| - 1].run, runs[|runs| - 1].others)
  }

  /** The last values others wrote, over all the runs. */
  function Written(job: Job, w: World, runs: seq<Busy>): Avatars {
    if runs == [] then w.avatars
    else
      var init, last := runs[..|runs| - 1], runs[|runs| - 1];
      LastWritten(Written(job, w, init), ActiveKeys(job, MigratedBesideAll(job, w, init).objects, last.run), last.others)
  }

  lemma {:induction false} BusyRunsKeep(job: Job, keys: seq<string>, w: World, runs: seq<Busy>)
    requires forall i, k :: 0 <= i < |runs| && k in runs[i].run.keys ==> k in keys
    ensures var t := MigratedBesideAll(job, w, runs);
            && PartlyCopied(job, keys, w.objects, t.objects)
            && KeptOrLanded(job, ActiveKeys(job, w.objects, Clean(keys)), Written(job, w, runs), t.avatars)
  {
    if runs != [] {
      var init, last := runs[..|runs| - 1], runs[|runs| - 1];
      BusyRunsKeep(job, keys, w, init);
      BusyRunKeeps(job, keys, w.objects, Written(job, w, init), MigratedBesideAll(job, w, init), last);
    }
  }

  lemma BusyRunKeeps(job: Job, keys: seq<string>, before: Objects, written: Avatars, w: World, busy: Busy)
    requires forall k :: k in busy.run.keys ==> k in keys
    requires PartlyCopied(job, keys, before, w.objects)
    requires KeptOrLanded(job, ActiveKeys(job, before, Clean(keys)), written, w.avatars)
    ensures var t := MigratedBeside(job, w, busy.run, busy.others);
            && PartlyCopied(job, keys, before, t.objects)
            && KeptOrLanded(job, ActiveKeys(job, before, Clean(keys)),
                            LastWritten(written, ActiveKeys(job, w.objects, busy.run), busy.others), t.avatars)
  {
    UploadsAre(job, w.objects, busy.run, busy.run.keys);
    SameActive(job, keys, before, w.objects);
    ActiveEitherWay(job, keys, w.objects, busy.run);
    ActiveAreAddressable(job, before, Clean(keys));
    RewriteKeepsOrLands(job, ActiveKeys(job, before, Clean(keys)), written, w.avatars, busy.run,
                        ActiveKeys(job, w.objects, busy.run), busy.others);
  }

  /**
   No write is lost: after any hindered runs beside any other writers a row holds
   the value last written to it, or the URL of a migrated key; the second only if
   that value ends in such a key, and then the shortest such key is the same for both.
   */
  lemma NoWriteIsLost(job: Job, keys: seq<string>, w: World, runs: seq<Busy>, id: nat)
    requires forall i, k :: 0 <= i < |runs| && k in runs[i].run.keys ==> k in keys
    requires id in MigratedBesideAll(job, w, runs).avatars
    ensures id in Written(job, w, runs)
    ensures var active := ActiveKeys(job, w.objects, Clean(keys));
            var written, value := Written(job, w, runs)[id], MigratedBesideAll(job, w, runs).avatars[id];
            && Lands(job, active, written, value)
            && (NoHit(active, written) ==> value == written)
            && forall k :: IsShortest(active, written, k) ==> IsShortest(active, value, k)
  {
    BusyRunsKeep(job, keys, w, runs);
    assert SameOutlook(ActiveKeys(job, w.objects, Clean(keys)), Written(job, w, runs)[id], MigratedBesideAll(job, w, runs).avatars[id]);
  }

  /**
   Convergence beside other writers: one clean run at the end reaches just what it
   would have reached from the last values others wrote, had no run gone before.
   */
  lemma ConvergesBesideWriters(job: Job, keys: seq<string>, w: World, runs: seq<Busy>)
    requires forall i, k :: 0 <= i < |runs| && k in runs[i].run.keys ==> k in keys
    ensures Migrated(job, MigratedBesideAll(job, w, runs), Clean(keys))
         == Migrated(job, World(w.objects, Written(job, w, runs)), Clean(keys))
  {
    BusyRunsKeep(job, keys, w, runs);
    CleanAgrees(job, keys, World(w.objects, Written(job, w, runs)), MigratedBesideAll(job, w, runs));
  }
}
