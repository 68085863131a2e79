/** The migration as the source runs it: two loops over buckets and rows changed in place. */
module MigrationCli {
  import opened Prelude
  import opened StorageKeys
  import opened DirectoryListing
  import opened Migration
  import opened MigrationTheorems
  import opened BusyMigration

  class S3CompatibleStorageProvider {
    const settings: Provider
    var objects: Objects

    constructor (settings: Provider, objects: Objects)
      ensures this.settings == settings && this.objects == objects
    {
      this.settings, this.objects := settings, objects;
    }

    /** Writes the bucket the key is routed to; an unsafe key throws before anything is sent. */
    method Upload(key: string, body: Body) returns (answer: Result<string, string>)
      modifies this`objects
      ensures answer.Ok? <==> SafeKey(key)
      ensures answer.Ok? ==> objects == old(objects)[(settings.BucketFor(key), key) := body] && answer.value == settings.GetUrl(key)
      ensures answer.Err? ==> objects == old(objects)
    {
      if !SafeKey(key) {
        return Err(key);
      }
      objects := objects[(settings.BucketFor(key), key) := body];
      return Ok(settings.GetUrl(key));
    }

    method Delete(key: string) returns (answer: Result<(), string>)
      modifies this`objects
      ensures answer.Ok? <==> SafeKey(key)
      ensures objects == if SafeKey(key) then old(objects) - {(settings.BucketFor(key), key)} else old(objects)
    {
      if !SafeKey(key) {
        return Err(key);
      }
      objects := objects - {(settings.BucketFor(key), key)};
      return Ok(());
    }

    /** The size of the object, or None if it is absent. */
    method HeadObject(bucket: string, key: string) returns (size: Option<nat>)
      ensures size == if (bucket, key) in objects then Some(|objects[(bucket, key)]|) else None
    {
      size := if (bucket, key) in objects then Some(|objects[(bucket, key)]|) else None;
    }
  }

  class AvatarTable {
    var rows: Avatars

    constructor (rows: Avatars)
      ensures this.rows == rows
    {
      this.rows := rows;
    }

    /** One compare-and-set per row read; the count sums what they changed. */
    method Update(read: Avatars, url: string) returns (count: nat)
      modifies this
      ensures rows == CompareAndSet(old(rows), read, url)
      ensures count == |StillEqual(old(rows), read)|
    {
      count := 0;
      var todo := read.Keys;
      ghost var begin, done: set<nat> := rows, {};
      NoRowYet(begin, read, url);
      while todo != {}
        invariant done + todo == read.Keys && done !! todo
        invariant rows == CompareAndSet(begin, Restricted(read, done), url)
        invariant count == |StillEqual(begin, Restricted(read, done))|
        decreases todo
      {
        var id :| id in todo;
        OneMoreRow(begin, read, done, id, url);
        var changed := UpdateIfEqual(id, read[id], url);
        count := count + changed;
        todo := todo - {id};
        done := done + {id};
      }
      assert Restricted(read, done) == read;
    }

    /** `updateMany` where the row still holds the value read. */
    method UpdateIfEqual(id: nat, read: string, url: string) returns (count: nat)
      modifies this
      ensures count == if id in old(rows) && old(rows)[id] == read then 1 else 0
      ensures rows == if count == 1 then old(rows)[id := url] else old(rows)
    {
      count := 0;
      if id in rows && rows[id] == read {
        rows := rows[id := url];
        count := 1;
      }
    }
  }

  lemma NoRowYet(rows: Avatars, read: Avatars, url: string)
    ensures StillEqual(rows, Restricted(read, {})) == {} && CompareAndSet(rows, Restricted(read, {}), url) == rows
  {
  }

  lemma OneMoreRow(rows: Avatars, read: Avatars, done: set<nat>, id: nat, url: string)
    requires id in read && id !in done
    ensures var before, after := Restricted(read, done), Restricted(read, done + {id});
            var hit := id in rows && rows[id] == read[id];
            && StillEqual(rows, after) == StillEqual(rows, before) + (if hit then {id} else {})
            && id !in StillEqual(rows, before)
            && (id in rows ==> CompareAndSet(rows, before, url)[id] == rows[id])
            && CompareAndSet(rows, after, url)
               == if hit then CompareAndSet(rows, before, url)[id := url] else CompareAndSet(rows, before, url)
  {
  }

  function Restricted(read: Avatars, ids: set<nat>): Avatars {
    map id | id in read && id in ids :: read[id]
  }

  /**
   Repoints one key's rows. `seen` is the table as the query found it, which may
   differ from the table updated: a row changed since then is left alone.
   */
  method RepointKey(job: Job, seen: Avatars, table: AvatarTable, run: Run, key: string) returns (changed: Option<nat>)
    modifies table
    ensures var read := Rechecked(job, FindLike(seen, "/" + key), key);
            if key in run.faults.find || (!run.dryRun && key in run.faults.update && read != map[]) then
              changed == None && table.rows == old(table.rows)
            else if run.dryRun then
              changed == Some(|read|) && table.rows == old(table.rows)
            else
              && changed == Some(|StillEqual(old(table.rows), read)|)
              && table.rows == CompareAndSet(old(table.rows), read, job.provider.GetUrl(key))
  {
    if key in run.faults.find {
      return None;
    }
    var read := Rechecked(job, FindLike(seen, "/" + key), key);
    if |read| == 0 {
      assert read == map[];
      assert StillEqual(table.rows, read) == {};
      assert CompareAndSet(table.rows, read, job.provider.GetUrl(key)) == table.rows;
      return Some(0);
    }
    if run.dryRun {
      return Some(|read|);
    }
    if key in run.faults.update {
      return None;
    }
    var count := table.Update(read, job.provider.GetUrl(key));
    return Some(count);
  }

  /** The directories that could not be listed, as the report names them. */
  function Unlisted(dirs: seq<string>): seq<string> {
    if dirs == [] then [] else Unlisted(dirs[..|dirs| - 1]) + [dirs[|dirs| - 1] + "/"]
  }

  /** Each is named once, by its path and a slash. */
  lemma {:induction false} UnlistedExactly(dirs: seq<string>)
    ensures |Unlisted(dirs)| == |dirs| && forall i :: 0 <= i < |dirs| ==> Unlisted(dirs)[i] == dirs[i] + "/"
  {
    if dirs != [] {
      UnlistedExactly(dirs[..|dirs| - 1]);
    }
  }

  method ListUnlisted(dirs: seq<string>) returns (unlisted: seq<string>)
    ensures unlisted == Unlisted(dirs)
  {
    unlisted := [];
    for i := 0 to |dirs|
      invariant unlisted == Unlisted(dirs[..i])
    {
      unlisted := unlisted + [dirs[i] + "/"];
      assert dirs[..i + 1][..i] == dirs[..i];
    }
    assert dirs[..|dirs|] == dirs;
  }

  /**
   The listing, the two loops over its keys, and the report; what could not be
   listed counts as failed. Others may write rows all the while.
   */
  method MigrateLocalStorage(readable: bool, root: seq<Entry>, disk: map<string, Body>, target: S3CompatibleStorageProvider,
                             table: AvatarTable, faults: Faults, dryRun: bool, others: Others)
    returns (report: Report)
    requires WellNamed(root)
    modifies target`objects, table
    ensures var keys := if readable then Sorted(KeysOf("", root)) else [];
            var dirs := if readable then UnreadableOf("", root) else ["."];
            var job, w, run := Job(target.settings, disk), World(old(target.objects), old(table.rows)), Run(faults, dryRun, keys);
            && report == ReportBeside(job, w, run, others).(failed := Unlisted(dirs) + ReportBeside(job, w, run, others).failed)
            && World(target.objects, table.rows) == MigratedBeside(job, w, run, others)
  {
    var keys, dirs := ListLocalKeys(readable, root);
    var unlisted := ListUnlisted(dirs);
    ListedInOrder(root);
    report := MigrateKeys(disk, target, table, Run(faults, dryRun, keys), others);
    report := report.(failed := unlisted + report.failed);
  }

  /** With no one else writing rows, just the run of the theorems. */
  method MigrateKeys(disk: map<string, Body>, target: S3CompatibleStorageProvider, table: AvatarTable, run: Run, others: Others)
    returns (report: Report)
    requires Distinct(run.keys)
    modifies target`objects, table
    ensures var job, w := Job(target.settings, disk), World(old(target.objects), old(table.rows));
            && report == ReportBeside(job, w, run, others)
            && World(target.objects, table.rows) == MigratedBeside(job, w, run, others)
            && (Alone(others) ==> report == ReportOf(job, w, run) && World(target.objects, table.rows) == Migrated(job, w, run))
  {
    var job := Job(target.settings, disk);
    ghost var w := World(target.objects, table.rows);
    var inTarget;
    report, inTarget := CopyFiles(job, target, run);
    report := RepointRows(job, table, run, report, inTarget, others);
    if Alone(others) {
      AloneIsTheRun(job, w, run, others);
    }
  }

  /** The first loop: copies what is missing and sorts every key into one list. */
  method CopyFiles(job: Job, target: S3CompatibleStorageProvider, run: Run) returns (report: Report, inTarget: seq<string>)
    requires target.settings == job.provider && Distinct(run.keys)
    modifies target`objects
    ensures target.objects == old(target.objects) + Uploads(job, old(target.objects), run, run.keys)
    ensures report == CopyReport(job, old(target.objects), run, run.keys)
    ensures inTarget == WithFate(job, old(target.objects), run, run.keys, IN_TARGET)
  {
    ghost var begin := target.objects;
    report, inTarget := Report([], [], [], [], [], [], 0), [];
    for i := 0 to |run.keys|
      invariant CopiedSoFar(job, begin, run, i, target.objects, report, inTarget)
    {
      var key := run.keys[i];
      CopiedNext(job, begin, run, i, target.objects, report, inTarget);
      var fate := CopyFile(job, target, run, key);
      report := Filed(report, fate, key);
      if fate in IN_TARGET {
        inTarget := inTarget + [key];
      }
    }
    assert run.keys[..|run.keys|] == run.keys;
  }

  ghost predicate CopiedSoFar(job: Job, begin: Objects, run: Run, i: nat, objects: Objects, report: Report, inTarget: seq<string>)
    requires i <= |run.keys|
  {
    && report == CopyReport(job, begin, run, run.keys[..i])
    && inTarget == WithFate(job, begin, run, run.keys[..i], IN_TARGET)
    && objects == begin + Uploads(job, begin, run, run.keys[..i])
  }

  lemma CopiedNext(job: Job, begin: Objects, run: Run, i: nat, objects: Objects, report: Report, inTarget: seq<string>)
    requires Distinct(run.keys) && i < |run.keys| && CopiedSoFar(job, begin, run, i, objects, report, inTarget)
    ensures var key := run.keys[i]; var fate := FateOf(job, objects, run, key);
            && (fate == Copied ==> key in job.disk)
            && CopiedSoFar(job, begin, run, i + 1,
                           if fate == Copied && !run.dryRun then objects[job.Place(key) := job.disk[key]] else objects,
                           Filed(report, fate, key),
                           if fate in IN_TARGET then inTarget + [key] else inTarget)
  {
    NextKey(job, begin, run, i);
    NextFate(job, begin, run, i, IN_TARGET);
    NextObjects(job, begin, run, i);
    SameFateSoFar(job, begin, objects, run, run.keys[i]);
  }

  lemma NextObjects(job: Job, begin: Objects, run: Run, i: nat)
    requires i < |run.keys| && Distinct(run.keys)
    ensures var key, objects := run.keys[i], begin + Uploads(job, begin, run, run.keys[..i]);
            && (FateOf(job, begin, run, key) == Copied ==> key in job.disk)
            && (job.Place(key) in objects <==> job.Place(key) in begin)
            && (job.Place(key) in begin ==> objects[job.Place(key)] == begin[job.Place(key)])
            && begin + Uploads(job, begin, run, run.keys[..i + 1])
               == if FateOf(job, begin, run, key) == Copied && !run.dryRun then objects[job.Place(key) := job.disk[key]] else objects
  {
    NextUpload(job, begin, run, i);
    var key, uploads := run.keys[i], Uploads(job, begin, run, run.keys[..i]);
    if FateOf(job, begin, run, key) == Copied {
      AddOne(begin, uploads, job.Place(key), job.disk[key]);
    } else {
      AddOne(begin, uploads, job.Place(key), []);
    }
  }

  lemma AddOne(begin: Objects, more: Objects, c: (string, string), body: Body)
    requires c !in more
    ensures begin + more[c := body] == (begin + more)[c := body]
    ensures c in begin + more <==> c in begin
    ensures c in begin ==> (begin + more)[c] == begin[c]
  {
  }

  /** One key: validated, sized, looked up in its bucket, and copied if it is not there. */
  method CopyFile(job: Job, target: S3CompatibleStorageProvider, run: Run, key: string) returns (fate: Fate)
    requires target.settings == job.provider
    modifies target`objects
    ensures fate == FateOf(job, old(target.objects), run, key)
    ensures fate == Copied ==> key in job.disk
    ensures target.objects == if fate == Copied && !run.dryRun then old(target.objects)[job.Place(key) := job.disk[key]]
                              else old(target.objects)
  {
    if !SafeKey(key) {
      return Unsafe;
    }
    if key in run.faults.head || key !in job.disk {
      return Failed;
    }
    var size := |job.disk[key]|;
    var existing := target.HeadObject(job.provider.BucketFor(key), key);
    if existing.Some? {
      return if existing.value == size then AlreadyPresent else Conflict;
    }
    if key in run.faults.read {
      return Failed;
    }
    if !run.dryRun {
      if key in run.faults.upload {
        return Failed;
      }
      var _ := target.Upload(key, job.disk[key]);
    }
    return Copied;
  }

  lemma SameFateSoFar(job: Job, begin: Objects, objects: Objects, run: Run, key: string)
    requires job.Place(key) in objects <==> job.Place(key) in begin
    requires job.Place(key) in begin ==> objects[job.Place(key)] == begin[job.Place(key)]
    ensures FateOf(job, objects, run, key) == FateOf(job, begin, run, key)
  {
  }

  function CopyReport(job: Job, objects: Objects, run: Run, keys: seq<string>): Report {
    Report(
      WithFate(job, objects, run, keys, {Copied}),
      WithFate(job, objects, run, keys, {AlreadyPresent}),
      WithFate(job, objects, run, keys, {Conflict}),
      WithFate(job, objects, run, keys, {Unsafe}),
      WithFate(job, objects, run, keys, {Failed}),
      [], 0)
  }

  /** The report with one more key in the list of its fate. */
  function Filed(report: Report, fate: Fate, key: string): Report {
    match fate
    case Copied => report.(copied := report.copied + [key])
    case AlreadyPresent => report.(alreadyPresent := report.alreadyPresent + [key])
    case Conflict => report.(conflicts := report.conflicts + [key])
    case Unsafe => report.(unsafe := report.unsafe + [key])
    case Failed => report.(failed := report.failed + [key])
  }

  lemma NextKey(job: Job, objects: Objects, run: Run, i: nat)
    requires i < |run.keys|
    ensures CopyReport(job, objects, run, run.keys[..i + 1])
         == Filed(CopyReport(job, objects, run, run.keys[..i]), FateOf(job, objects, run, run.keys[i]), run.keys[i])
  {
    var now, next := CopyReport(job, objects, run, run.keys[..i]), CopyReport(job, objects, run, run.keys[..i + 1]);
    NextFate(job, objects, run, i, {Copied});
    NextFate(job, objects, run, i, {AlreadyPresent});
    NextFate(job, objects, run, i, {Conflict});
    NextFate(job, objects, run, i, {Unsafe});
    NextFate(job, objects, run, i, {Failed});
    FiledIs(now, next, FateOf(job, objects, run, run.keys[i]), run.keys[i]);
  }

  function AppendIf(keys: seq<string>, more: bool, key: string): seq<string> {
    if more then keys + [key] else keys
  }

  /** One list takes the key, the others stay. */
  lemma FiledIs(now: Report, next: Report, fate: Fate, key: string)
    requires next.copied == AppendIf(now.copied, fate == Copied, key)
    requires next.alreadyPresent == AppendIf(now.alreadyPresent, fate == AlreadyPresent, key)
    requires next.conflicts == AppendIf(now.conflicts, fate == Conflict, key)
    requires next.unsafe == AppendIf(now.unsafe, fate == Unsafe, key)
    requires next.failed == AppendIf(now.failed, fate == Failed, key)
    requires next.avatarsNotPublic == now.avatarsNotPublic && next.avatarRowsUpdated == now.avatarRowsUpdated
    ensures next == Filed(now, fate, key)
  {
  }

  lemma NextFate(job: Job, objects: Objects, run: Run, i: nat, fates: set<Fate>)
    requires i < |run.keys|
    ensures WithFate(job, objects, run, run.keys[..i + 1], fates)
         == AppendIf(WithFate(job, objects, run, run.keys[..i], fates), FateOf(job, objects, run, run.keys[i]) in fates, run.keys[i])
  {
    assert run.keys[..i + 1][..i] == run.keys[..i];
  }

  /** Earlier keys are other keys, so their uploads are elsewhere. */
  lemma NextUpload(job: Job, objects: Objects, run: Run, i: nat)
    requires i < |run.keys| && Distinct(run.keys)
    ensures var key, uploads := run.keys[i], Uploads(job, objects, run, run.keys[..i]);
            && job.Place(key) !in uploads
            && Uploads(job, objects, run, run.keys[..i + 1]) == WithUpload(job, objects, run, uploads, key)
  {
    assert run.keys[..i + 1] == run.keys[..i] + [run.keys[i]];
    OneMoreUpload(job, objects, run, run.keys[..i], run.keys[i]);
  }

  function WithUpload(job: Job, objects: Objects, run: Run, uploads: Objects, key: string): Objects {
    if FateOf(job, objects, run, key) == Copied && !run.dryRun && key in job.disk then uploads[job.Place(key) := job.disk[key]]
    else uploads
  }

  lemma OneMoreUpload(job: Job, objects: Objects, run: Run, keys: seq<string>, key: string)
    requires key !in keys
    ensures job.Place(key) !in Uploads(job, objects, run, keys)
    ensures Uploads(job, objects, run, keys + [key]) == WithUpload(job, objects, run, Uploads(job, objects, run, keys), key)
  {
    UploadAt(job, objects, run, keys, job.Place(key));
    var uploads := Uploads(job, objects, run, keys);
    forall c ensures Lookup(Uploads(job, objects, run, keys + [key]), c) == Lookup(WithUpload(job, objects, run, uploads, key), c) {
      NextUploadAt(job, objects, run, keys, key, c);
    }
    SameLookups(Uploads(job, objects, run, keys + [key]), WithUpload(job, objects, run, uploads, key));
  }

  lemma NextUploadAt(job: Job, objects: Objects, run: Run, keys: seq<string>, key: string, c: (string, string))
    ensures Lookup(Uploads(job, objects, run, keys + [key]), c)
         == if c == job.Place(key) && FateOf(job, objects, run, key) == Copied && !run.dryRun && key in job.disk
            then Some(job.disk[key]) else Lookup(Uploads(job, objects, run, keys), c)
  {
    UploadAt(job, objects, run, keys, c);
    UploadAt(job, objects, run, keys + [key], c);
    assert forall k :: k in keys + [key] <==> k in keys || k == key;
  }

  lemma UploadAt(job: Job, objects: Objects, run: Run, keys: seq<string>, c: (string, string))
    ensures Lookup(Uploads(job, objects, run, keys), c)
         == if !run.dryRun && c.1 in keys && c == job.Place(c.1) && FateOf(job, objects, run, c.1) == Copied
            then Some(job.disk[c.1]) else None
  {
    UploadsAre(job, objects, run, keys);
  }

  /** The second loop: points the rows of every migrated, publicly readable avatar at its new URL, beside other writers. */
  method RepointRows(job: Job, table: AvatarTable, run: Run, copied: Report, inTarget: seq<string>, others: Others)
    returns (report: Report)
    modifies table
    ensures var active := AvatarKeys(job, inTarget, true);
            && table.rows == RewriteBeside(job, old(table.rows), run, active, others)
            && report == copied.(
                           failed := copied.failed + FailedBeside(job, old(table.rows), run, active, others),
                           avatarsNotPublic := copied.avatarsNotPublic + AvatarKeys(job, inTarget, false),
                           avatarRowsUpdated := copied.avatarRowsUpdated + ChangesBeside(job, old(table.rows), run, active, others))
  {
    ghost var begin := table.rows;
    report := copied;
    for i := 0 to |inTarget|
      invariant RepointedSoFar(job, begin, run, copied, inTarget[..i], others, table.rows, report)
    {
      var key := inTarget[i];
      if !job.IsAvatarKey(key) {
        NotRepointed(job, begin, run, copied, inTarget, i, others, table.rows, report);
        continue;
      }
      if !job.IsPubliclyReadable(key) {
        NotRepointed(job, begin, run, copied, inTarget, i, others, table.rows, report);
        report := report.(avatarsNotPublic := report.avatarsNotPublic + [key]);
        continue;
      }
      RepointedNext(job, begin, run, copied, inTarget, i, others, table.rows, report);
      table.rows := table.rows + others(key).before;
      var seen := table.rows;
      table.rows := table.rows + others(key).between;
      UndisturbedRepoint(job, seen, key);
      var changed := RepointKey(job, seen, table, run, key);
      match changed
      case None => report := report.(failed := report.failed + [key]);
      case Some(n) => report := report.(avatarRowsUpdated := report.avatarRowsUpdated + n);
    }
    assert inTarget[..|inTarget|] == inTarget;
  }

  ghost predicate RepointedSoFar(job: Job, begin: Avatars, run: Run, copied: Report, keys: seq<string>, others: Others,
                                 rows: Avatars, report: Report)
  {
    && rows == RewriteBeside(job, begin, run, AvatarKeys(job, keys, true), others)
    && report == Repointed(job, begin, run, copied, keys, others)
  }

  lemma NotRepointed(job: Job, begin: Avatars, run: Run, copied: Report, keys: seq<string>, i: nat, others: Others,
                     rows: Avatars, report: Report)
    requires i < |keys| && RepointedSoFar(job, begin, run, copied, keys[..i], others, rows, report) && !Repointable(job, keys[i])
    ensures RepointedSoFar(job, begin, run, copied, keys[..i + 1], others, rows,
                           if job.IsAvatarKey(keys[i]) then report.(avatarsNotPublic := report.avatarsNotPublic + [keys[i]]) else report)
  {
    NextAvatar(job, keys, i);
    NotPublicNext(job, begin, run, copied, keys[..i], keys[..i + 1], others, keys[i]);
  }

  /** A key that is not repointed is at most one more that is not public. */
  lemma NotPublicNext(job: Job, begin: Avatars, run: Run, copied: Report, before: seq<string>, after: seq<string>, others: Others,
                      key: string)
    requires AvatarKeys(job, after, true) == AvatarKeys(job, before, true)
    requires AvatarKeys(job, after, false)
          == if job.IsAvatarKey(key) then AvatarKeys(job, before, false) + [key] else AvatarKeys(job, before, false)
    ensures var report := Repointed(job, begin, run, copied, before, others);
            Repointed(job, begin, run, copied, after, others)
            == if job.IsAvatarKey(key) then report.(avatarsNotPublic := report.avatarsNotPublic + [key]) else report
  {
    Appended(copied.avatarsNotPublic, AvatarKeys(job, before, false), key);
  }

  lemma RepointedNext(job: Job, begin: Avatars, run: Run, copied: Report, keys: seq<string>, i: nat, others: Others,
                      rows: Avatars, report: Report)
    requires i < |keys| && RepointedSoFar(job, begin, run, copied, keys[..i], others, rows, report) && Repointable(job, keys[i])
    ensures var key := keys[i];
            RepointedSoFar(job, begin, run, copied, keys[..i + 1], others, RepointBeside(job, rows, run, key, others),
                           if RewriteFails(job, Seen(rows, others, key), run, key) then report.(failed := report.failed + [key])
                           else report.(avatarRowsUpdated := report.avatarRowsUpdated + ChangedBeside(job, rows, run, key, others)))
  {
    NextAvatar(job, keys, i);
    OneMoreActive(job, begin, run, AvatarKeys(job, keys[..i], true), keys[i], others);
    Appended(copied.failed, FailedBeside(job, begin, run, AvatarKeys(job, keys[..i], true), others), keys[i]);
  }

  lemma Appended(before: seq<string>, more: seq<string>, key: string)
    ensures (before + more) + [key] == before + (more + [key])
    ensures more + [] == more
  {
  }

  lemma NextAvatar(job: Job, keys: seq<string>, i: nat)
    requires i < |keys|
    ensures AvatarKeys(job, keys[..i + 1], true)
         == if Repointable(job, keys[i]) then AvatarKeys(job, keys[..i], true) + [keys[i]] else AvatarKeys(job, keys[..i], true)
    ensures AvatarKeys(job, keys[..i + 1], false)
         == if job.IsAvatarKey(keys[i]) && !job.IsPubliclyReadable(keys[i]) then AvatarKeys(job, keys[..i], false) + [keys[i]]
            else AvatarKeys(job, keys[..i], false)
  {
    assert keys[..i + 1][..i] == keys[..i];
  }

  function Repointed(job: Job, rows: Avatars, run: Run, copied: Report, keys: seq<string>, others: Others): Report {
    var active := AvatarKeys(job, keys, true);
    copied.(failed := copied.failed + FailedBeside(job, rows, run, active, others),
            avatarsNotPublic := copied.avatarsNotPublic + AvatarKeys(job, keys, false),
            avatarRowsUpdated := copied.avatarRowsUpdated + ChangesBeside(job, rows, run, active, others))
  }

  lemma OneMoreActive(job: Job, rows: Avatars, run: Run, active: seq<string>, key: string, others: Others)
    ensures var before := RewriteBeside(job, rows, run, active, others); var more := active + [key];
            && RewriteBeside(job, rows, run, more, others) == RepointBeside(job, before, run, key, others)
            && FailedBeside(job, rows, run, more, others)
               == FailedBeside(job, rows, run, active, others)
                  + (if RewriteFails(job, Seen(before, others, key), run, key) then [key] else [])
            && ChangesBeside(job, rows, run, more, others)
               == ChangesBeside(job, rows, run, active, others) + ChangedBeside(job, before, run, key, others)
  {
    assert (active + [key])[..|active|] == active;
  }
}
