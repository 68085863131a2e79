/**
 The local-to-Neon migration as a function of the disk, the buckets and the
 avatar rows. Runs may fail at any step for any key; a write that fails changes
 nothing.
 */
module Migration {
  import opened StorageKeys

  type Body = seq<nat>
  type Objects = map<(string, string), Body>
  type Avatars = map<nat, string>

  const AVATAR_PREFIX := "avatars"

  datatype Job = Job(provider: Provider, disk: map<string, Body>)
  {
    function Place(key: string): (string, string) {
      (provider.BucketFor(key), key)
    }

    predicate IsAvatarKey(key: string) {
      FirstSegment(key) == AVATAR_PREFIX
    }

    /** The address resolves without a signature. */
    predicate IsPubliclyReadable(key: string) {
      IsSet(provider.publicBaseUrl)
      || (provider.publicBucket.Some? && provider.BucketFor(key) == provider.publicBucket.value)
    }
  }

  datatype World = World(objects: Objects, avatars: Avatars)

  /** The keys for which stat or head, the read, the upload, the row query, the row update fails. */
  datatype Faults = Faults(head: set<string>, read: set<string>, upload: set<string>, find: set<string>, update: set<string>)

  const NO_FAULTS := Faults({}, {}, {}, {}, {})

  datatype Run = Run(faults: Faults, dryRun: bool, keys: seq<string>)

  datatype Fate = Unsafe | Failed | AlreadyPresent | Conflict | Copied

  /** What the first loop does with one listed key. */
  function FateOf(job: Job, objects: Objects, run: Run, key: string): Fate {
    if !SafeKey(key) then Unsafe
    else if key in run.faults.head || key !in job.disk then Failed
    else if job.Place(key) in objects then
      if |objects[job.Place(key)]| == |job.disk[key]| then AlreadyPresent else Conflict
    else if key in run.faults.read then Failed
    else if !run.dryRun && key in run.faults.upload then Failed
    else Copied
  }

  /** The keys among `keys`, in order, that meet one of the fates. */
  function WithFate(job: Job, objects: Objects, run: Run, keys: seq<string>, fates: set<Fate>): seq<string> {
    if keys == [] then []
    else
      var n := |keys| - 1;
      WithFate(job, objects, run, keys[..n], fates)
      + if FateOf(job, objects, run, keys[n]) in fates then [keys[n]] else []
  }

  /** The objects a real run writes. */
  function Uploads(job: Job, objects: Objects, run: Run, keys: seq<string>): Objects {
    if run.dryRun then map[]
    else map k | k in keys && FateOf(job, objects, run, k) == Copied && k in job.disk :: job.Place(k) := job.disk[k]
  }

  const IN_TARGET := {AlreadyPresent, Copied}

  predicate Repointable(job: Job, key: string) {
    job.IsAvatarKey(key) && job.IsPubliclyReadable(key)
  }

  /** Of `keys`, the avatar keys whose rows may be rewritten (or, `readable` false, may not). */
  function AvatarKeys(job: Job, keys: seq<string>, readable: bool): seq<string> {
    if keys == [] then []
    else
      var n := |keys| - 1;
      AvatarKeys(job, keys[..n], readable)
      + if job.IsAvatarKey(keys[n]) && job.IsPubliclyReadable(keys[n]) == readable then [keys[n]] else []
  }

  /** The keys of the second loop that get as far as the rows. */
  function ActiveKeys(job: Job, objects: Objects, run: Run): seq<string> {
    AvatarKeys(job, WithFate(job, objects, run, run.keys, IN_TARGET), true)
  }

  // ------------------------------------------------------------ one avatar key

  predicate ToMove(job: Job, value: string, key: string) {
    EndsWith(value, "/" + key) && value != job.provider.GetUrl(key)
  }

  function RowsToMove(job: Job, rows: Avatars, key: string): set<nat> {
    set id | id in rows && ToMove(job, rows[id], key)
  }

  /** Rows whose value is still the one read are pointed at `url`. */
  function CompareAndSet(rows: Avatars, read: Avatars, url: string): Avatars {
    map id | id in rows :: if id in read && rows[id] == read[id] then url else rows[id]
  }

  function StillEqual(rows: Avatars, read: Avatars): set<nat> {
    set id | id in rows && id in read && rows[id] == read[id]
  }

  /** The candidates a query returned, exactly re-checked. */
  function Rechecked(job: Job, candidates: Avatars, key: string): Avatars {
    map id | id in candidates && ToMove(job, candidates[id], key) :: candidates[id]
  }

  /** `_` is the one wildcard a safe key can hold in a SQL LIKE. */
  predicate LikeEndsWith(value: string, suffix: string) {
    && |suffix| <= |value|
    && forall i :: 0 <= i < |suffix| ==> suffix[i] == '_' || suffix[i] == value[|value| - |suffix| + i]
  }

  function FindLike(rows: Avatars, suffix: string): Avatars {
    map id | id in rows && LikeEndsWith(rows[id], suffix) :: rows[id]
  }

  predicate RewriteFails(job: Job, rows: Avatars, run: Run, key: string) {
    key in run.faults.find || (!run.dryRun && key in run.faults.update && RowsToMove(job, rows, key) != {})
  }

  function RewriteKey(job: Job, rows: Avatars, run: Run, key: string): Avatars {
    if run.dryRun || RewriteFails(job, rows, run, key) then rows
    else map id | id in rows :: if ToMove(job, rows[id], key) then job.provider.GetUrl(key) else rows[id]
  }

  function RewriteAll(job: Job, rows: Avatars, run: Run, keys: seq<string>): Avatars {
    if keys == [] then rows
    else RewriteKey(job, RewriteAll(job, rows, run, keys[..|keys| - 1]), run, keys[|keys| - 1])
  }

  /** How many rows each key points at its URL (or, in a dry run, would point), turn by turn. */
  function Changes(job: Job, rows: Avatars, run: Run, keys: seq<string>): (counts: seq<nat>)
    ensures |counts| == |keys|
  {
    if keys == [] then []
    else
      var n := |keys| - 1;
      var before := RewriteAll(job, rows, run, keys[..n]);
      Changes(job, rows, run, keys[..n])
      + [if RewriteFails(job, before, run, keys[n]) then 0 else |RowsToMove(job, before, keys[n])|]
  }

  function FailedRewrites(job: Job, rows: Avatars, run: Run, keys: seq<string>): seq<string> {
    if keys == [] then []
    else
      var n := |keys| - 1;
      FailedRewrites(job, rows, run, keys[..n])
      + if RewriteFails(job, RewriteAll(job, rows, run, keys[..n]), run, keys[n]) then [keys[n]] else []
  }

  function Sum(counts: seq<nat>): nat {
    if counts == [] then 0 else Sum(counts[..|counts| - 1]) + counts[|counts| - 1]
  }

  // ------------------------------------------------------------------- one run

  datatype Report = Report(
    copied: seq<string>,
    alreadyPresent: seq<string>,
    conflicts: seq<string>,
    unsafe: seq<string>,
    failed: seq<string>,
    avatarsNotPublic: seq<string>,
    avatarRowsUpdated: nat)

  function ReportOf(job: Job, w: World, run: Run): Report {
    var active := ActiveKeys(job, w.objects, run);
    Report(
      WithFate(job, w.objects, run, run.keys, {Copied}),
      WithFate(job, w.objects, run, run.keys, {AlreadyPresent}),
      WithFate(job, w.objects, run, run.keys, {Conflict}),
      WithFate(job, w.objects, run, run.keys, {Unsafe}),
      WithFate(job, w.objects, run, run.keys, {Failed}) + FailedRewrites(job, w.avatars, run, active),
      AvatarKeys(job, WithFate(job, w.objects, run, run.keys, IN_TARGET), false),
      Sum(Changes(job, w.avatars, run, active)))
  }

  function Migrated(job: Job, w: World, run: Run): World {
    World(w.objects + Uploads(job, w.objects, run, run.keys),
          RewriteAll(job, w.avatars, run, ActiveKeys(job, w.objects, run)))
  }

  /** A run with nothing in its way. */
  function Clean(keys: seq<string>): Run {
    Run(NO_FAULTS, false, keys)
  }

  function MigratedAll(job: Job, w: World, runs: seq<Run>): World {
    if runs == [] then w
    else Migrated(job, MigratedAll(job, w, runs[..|runs| - 1]), runs[|runs| - 1])
  }
}
