/** Which storage environments are accepted, and what routing an accepted one gets. */
module StorageConfig {
  import opened Prelude
  import opened StorageKeys

  type Env = map<string, string>

  const HANDYMAN_DOCUMENT_PREFIX := "handyman-documents"
  const DEFAULT_PREFIXES := "avatars,receipts"
  const DEFAULT_DRIVER := "local"

  function Get(env: Env, name: string, default: string): string {
    if name in env then env[name] else default
  }

  /** White space as `String.prototype.trim` sees it. */
  predicate IsSpace(c: char) {
    var n := c as int;
    || 0x9 <= n <= 0xD || n == 0x20 || n == 0xA0 || n == 0x1680 || 0x2000 <= n <= 0x200A
    || n == 0x2028 || n == 0x2029 || n == 0x202F || n == 0x205F || n == 0x3000 || n == 0xFEFF
  }

  function Trim(s: string): string {
    if s != "" && IsSpace(s[0]) then Trim(s[1..])
    else if s != "" && IsSpace(s[|s| - 1]) then Trim(s[..|s| - 1])
    else s
  }

  const SPACES := "\t\n\U{B}\U{C}\r \U{A0}\U{1680}\U{2028}\U{2029}\U{202F}\U{205F}\U{3000}\U{FEFF}"
  const QUADS := "\U{2000}\U{2001}\U{2002}\U{2003}\U{2004}\U{2005}\U{2006}\U{2007}\U{2008}\U{2009}\U{200A}"

  /** Tab to carriage return, the space, the byte order mark, and Unicode's space, line and paragraph separators. */
  lemma SpaceExactly(c: char)
    ensures IsSpace(c) <==> c in SPACES || c in QUADS
  {
    Quad(c);
    var n := c as int;
    if 0x9 <= n <= 0xD {
      assert SPACES[n - 9] == c;
    }
  }

  lemma Quad(c: char)
    ensures c in QUADS <==> 0x2000 <= c as int <= 0x200A
  {
    if 0x2000 <= c as int <= 0x200A {
      assert QUADS[c as int - 0x2000] == c;
    }
  }

  /** A trimmed string neither starts nor ends with white space, so trimming again does nothing. */
  lemma {:induction false} TrimIdempotent(s: string)
    ensures Trim(s) != "" ==> !IsSpace(Trim(s)[0]) && !IsSpace(Trim(s)[|Trim(s)| - 1])
    ensures Trim(Trim(s)) == Trim(s)
  {
    if s != "" && IsSpace(s[0]) {
      TrimIdempotent(s[1..]);
    } else if s != "" && IsSpace(s[|s| - 1]) {
      TrimIdempotent(s[..|s| - 1]);
    }
  }

  /** `.map(trim).filter(Boolean)` */
  function TrimAll(parts: seq<string>): seq<string> {
    if parts == [] then []
    else
      var first := Trim(parts[0]);
      (if first == "" then [] else [first]) + TrimAll(parts[1..])
  }

  function PublicPrefixes(env: Env): seq<string> {
    TrimAll(Split(Get(env, "STORAGE_NEON_PUBLIC_PREFIXES", DEFAULT_PREFIXES), ','))
  }

  /** A blank public bucket means no public bucket. */
  function PublicBucket(env: Env): Option<string> {
    var name := Trim(Get(env, "STORAGE_NEON_PUBLIC_BUCKET", ""));
    if name == "" then None else Some(name)
  }

  /** The `neon` settings of `configuration()`, as the provider gets them. */
  function NeonProvider(env: Env): Provider {
    var baseUrl := Get(env, "STORAGE_PUBLIC_BASE_URL", "");
    Provider(
      Get(env, "STORAGE_NEON_BUCKET", ""),
      PublicBucket(env),
      PublicPrefixes(env),
      if baseUrl == "" then None else Some(baseUrl),
      Some(Get(env, "AWS_ENDPOINT_URL_S3", "")),
      Get(env, "AWS_REGION", ""),
      true)
  }

  datatype Issue =
    | PrefixWithSlash
    | DocumentsListed
    | SameBucket
    | NothingRouted
    | Missing(name: string)

  function RequiredByDriver(driver: string): seq<string> {
    if driver == "s3-compatible" then
      ["STORAGE_S3_BUCKET", "STORAGE_S3_ACCESS_KEY_ID", "STORAGE_S3_SECRET_ACCESS_KEY"]
    else if driver == "cloudinary" then
      ["STORAGE_CLOUDINARY_CLOUD_NAME", "STORAGE_CLOUDINARY_API_KEY", "STORAGE_CLOUDINARY_API_SECRET"]
    else if driver == "neon" then
      ["AWS_ENDPOINT_URL_S3", "AWS_REGION", "AWS_ACCESS_KEY_ID", "AWS_SECRET_ACCESS_KEY", "STORAGE_NEON_BUCKET"]
    else []
  }

  /** No prefix has a slash or is the documents', and a public bucket is another bucket with something routed to it. */
  predicate WellRouted(env: Env) {
    SoundRouting(PublicPrefixes(env), PublicBucket(env), Trim(Get(env, "STORAGE_NEON_BUCKET", "")))
  }

  predicate SoundRouting(prefixes: seq<string>, publicBucket: Option<string>, bucket: string) {
    && (forall i :: 0 <= i < |prefixes| ==> '/' !in prefixes[i])
    && HANDYMAN_DOCUMENT_PREFIX !in prefixes
    && (publicBucket.Some? ==> publicBucket.value != bucket && prefixes != [])
  }

  predicate HasCredentials(env: Env) {
    AllPresent(env, RequiredByDriver(Get(env, "STORAGE_DRIVER", DEFAULT_DRIVER)))
  }

  predicate AllPresent(env: Env, names: seq<string>) {
    forall i :: 0 <= i < |names| ==> Trim(Get(env, names[i], "")) != ""
  }

  /** The storage rules of `superRefine`: the environment is accepted when no issue is added. */
  method FindIssues(env: Env) returns (issues: seq<Issue>)
    ensures issues == [] <==> WellRouted(env) && HasCredentials(env)
  {
    issues := FindRoutingIssues(env);
    issues := AddMissing(env, RequiredByDriver(Get(env, "STORAGE_DRIVER", DEFAULT_DRIVER)), issues);
  }

  method FindRoutingIssues(env: Env) returns (issues: seq<Issue>)
    ensures issues == [] <==> WellRouted(env)
    ensures AreTheIssues(issues, PublicPrefixes(env), PublicBucket(env), Trim(Get(env, "STORAGE_NEON_BUCKET", "")))
  {
    issues := CheckRouting(PublicPrefixes(env), PublicBucket(env), Trim(Get(env, "STORAGE_NEON_BUCKET", "")));
  }

  /** Each issue is raised exactly for its own fault. */
  predicate AreTheIssues(issues: seq<Issue>, prefixes: seq<string>, publicBucket: Option<string>, bucket: string) {
    && (PrefixWithSlash in issues <==> exists i :: 0 <= i < |prefixes| && '/' in prefixes[i])
    && (DocumentsListed in issues <==> HANDYMAN_DOCUMENT_PREFIX in prefixes)
    && (SameBucket in issues <==> publicBucket == Some(bucket))
    && (NothingRouted in issues <==> publicBucket.Some? && prefixes == [])
  }

  method CheckRouting(prefixes: seq<string>, publicBucket: Option<string>, bucket: string) returns (issues: seq<Issue>)
    ensures issues == [] <==> SoundRouting(prefixes, publicBucket, bucket)
    ensures AreTheIssues(issues, prefixes, publicBucket, bucket)
  {
    issues := [];
    if exists i :: 0 <= i < |prefixes| && '/' in prefixes[i] {
      issues := issues + [PrefixWithSlash];
    }
    if HANDYMAN_DOCUMENT_PREFIX in prefixes {
      issues := issues + [DocumentsListed];
    }
    if publicBucket.Some? && publicBucket.value == bucket {
      issues := issues + [SameBucket];
    }
    if publicBucket.Some? && prefixes == [] {
      issues := issues + [NothingRouted];
    }
  }

  /** One issue for each required setting that is blank, in order, after those already found. */
  method AddMissing(env: Env, required: seq<string>, found: seq<Issue>) returns (issues: seq<Issue>)
    ensures found <= issues
    ensures issues == found <==> AllPresent(env, required)
    ensures forall name :: Missing(name) in issues[|found|..] <==> name in required && Trim(Get(env, name, "")) == ""
  {
    issues := found;
    for i := 0 to |required|
      invariant found <= issues
      invariant issues == found <==> AllPresent(env, required[..i])
      invariant forall name :: Missing(name) in issues[|found|..] <==> name in required[..i] && Trim(Get(env, name, "")) == ""
    {
      assert required[..i + 1] == required[..i] + [required[i]];
      if Trim(Get(env, required[i], "")) == "" {
        assert (issues + [Missing(required[i])])[|found|..] == issues[|found|..] + [Missing(required[i])];
        issues := issues + [Missing(required[i])];
      }
    }
    assert required[..|required|] == required;
  }

  // -------------------------------------------------- what acceptance guarantees

  /** The rules are the right ones: whatever the settings, just these keep every document key out of the public bucket. */
  lemma DocumentsPrivateExactly(p: Provider)
    ensures (forall rest :: p.BucketFor(HANDYMAN_DOCUMENT_PREFIX + "/" + rest) == p.bucket)
       <==> !IsSet(p.publicBucket) || HANDYMAN_DOCUMENT_PREFIX !in p.publicKeyPrefixes || p.publicBucket.value == p.bucket
  {
    DocumentPrefixIsSegment();
    forall rest ensures FirstSegment(HANDYMAN_DOCUMENT_PREFIX + "/" + rest) == HANDYMAN_DOCUMENT_PREFIX {
      PrefixCaptures(HANDYMAN_DOCUMENT_PREFIX, rest);
    }
    assert FirstSegment(HANDYMAN_DOCUMENT_PREFIX + "/" + "") == HANDYMAN_DOCUMENT_PREFIX;
  }

  /** Identity documents always go to the private bucket. */
  lemma DocumentsStayPrivate(env: Env, key: string)
    requires WellRouted(env) && FirstSegment(key) == HANDYMAN_DOCUMENT_PREFIX
    ensures NeonProvider(env).BucketFor(key) == NeonProvider(env).bucket
  {
  }

  /** The key `handyman.service.ts` builds for a document, whatever follows the prefix. */
  lemma DocumentKeysStayPrivate(env: Env, rest: string)
    requires WellRouted(env)
    ensures NeonProvider(env).BucketFor(HANDYMAN_DOCUMENT_PREFIX + "/" + rest) == NeonProvider(env).bucket
  {
    DocumentPrefixIsSegment();
    PrefixCaptures(HANDYMAN_DOCUMENT_PREFIX, rest);
    DocumentsStayPrivate(env, HANDYMAN_DOCUMENT_PREFIX + "/" + rest);
  }

  lemma DocumentPrefixIsSegment()
    ensures '/' !in HANDYMAN_DOCUMENT_PREFIX
  {
  }

  /** The names compared are trimmed, the private one is used untrimmed, and still they differ. */
  lemma BucketsDiffer(env: Env)
    requires WellRouted(env) && NeonProvider(env).publicBucket.Some?
    ensures NeonProvider(env).publicBucket.value != NeonProvider(env).bucket
    ensures IsSet(NeonProvider(env).publicBucket)
  {
    TrimIdempotent(Get(env, "STORAGE_NEON_PUBLIC_BUCKET", ""));
  }

  /** With a public bucket, a key goes there exactly when its first segment is one of the prefixes. */
  lemma PrefixesCaptureTheirKeys(env: Env, prefix: string, rest: string)
    requires WellRouted(env) && NeonProvider(env).publicBucket.Some? && '/' !in prefix
    ensures NeonProvider(env).BucketFor(prefix + "/" + rest)
         == if prefix in PublicPrefixes(env) then NeonProvider(env).publicBucket.value else NeonProvider(env).bucket
  {
    BucketsDiffer(env);
    PrefixCaptures(prefix, rest);
  }

  // --------------------------------------------------- from the text of the setting

  function Join(entries: seq<string>): string
    requires entries != []
  {
    if |entries| == 1 then entries[0] else entries[0] + [','] + Join(entries[1..])
  }

  predicate NoCommas(entries: seq<string>) {
    forall i :: 0 <= i < |entries| ==> ',' !in entries[i]
  }

  lemma {:induction false} SplitJoin(entries: seq<string>)
    requires entries != [] && NoCommas(entries)
    ensures Split(Join(entries), ',') == entries
  {
    if |entries| == 1 {
      SplitNone(entries[0], ',');
    } else {
      SplitJoin(entries[1..]);
      SplitHead(entries[0], ',', Join(entries[1..]));
    }
  }

  lemma {:induction false} TrimAllMembers(parts: seq<string>, p: string)
    ensures p in TrimAll(parts) <==> IsEntry(parts, p)
  {
    if parts != [] {
      TrimAllMembers(parts[1..], p);
      if i :| 0 <= i < |parts| && Trim(parts[i]) == p {
        assert i > 0 ==> parts[1..][i - 1] == parts[i];
      }
      if p in TrimAll(parts[1..]) {
        var j :| 0 <= j < |parts[1..]| && Trim(parts[1..][j]) == p;
        assert parts[j + 1] == parts[1..][j];
      }
    }
  }

  predicate AllSpaces(s: string) {
    forall i :: 0 <= i < |s| ==> IsSpace(s[i])
  }

  /** The string is the text between two runs of white space. */
  predicate Padded(s: string, text: string, before: string, after: string) {
    s == before + text + after && AllSpaces(before) && AllSpaces(after)
  }

  lemma PaddedBefore(s: string, text: string, before: string, after: string)
    requires s != "" && IsSpace(s[0]) && Padded(s[1..], text, before, after)
    ensures Padded(s, text, s[..1] + before, after)
  {
    assert s == s[..1] + (before + text + after);
  }

  lemma PaddedAfter(s: string, text: string, before: string, after: string)
    requires s != "" && IsSpace(s[|s| - 1]) && Padded(s[..|s| - 1], text, before, after)
    ensures Padded(s, text, before, after + s[|s| - 1..])
  {
    assert s == (before + text + after) + s[|s| - 1..];
  }

  /** Trimming takes white space off both ends and nothing else. */
  lemma {:induction false} TrimIs(s: string) returns (before: string, after: string)
    ensures Padded(s, Trim(s), before, after)
  {
    before, after := "", "";
    if s != "" && IsSpace(s[0]) {
      before, after := TrimIs(s[1..]);
      PaddedBefore(s, Trim(s), before, after);
      before := s[..1] + before;
    } else if s != "" && IsSpace(s[|s| - 1]) {
      before, after := TrimIs(s[..|s| - 1]);
      PaddedAfter(s, Trim(s), before, after);
      after := after + s[|s| - 1..];
    }
  }

  const PREFIXES := "STORAGE_NEON_PUBLIC_PREFIXES"

  predicate Sets(env: Env, name: string, value: string) {
    name in env && env[name] == value
  }

  /** An entry that is not blank, trimmed. */
  predicate IsEntry(entries: seq<string>, p: string) {
    p != "" && exists i :: 0 <= i < |entries| && Trim(entries[i]) == p
  }

  /** The prefixes are the entries of the setting, trimmed, but for blank ones; every entry counts. */
  lemma PrefixesAreTheEntries(env: Env, entries: seq<string>, p: string)
    requires entries != [] && NoCommas(entries) && Sets(env, PREFIXES, Join(entries))
    ensures p in PublicPrefixes(env) <==> IsEntry(entries, p)
  {
    SplitJoin(entries);
    TrimAllMembers(entries, p);
  }

  /** In an accepted environment with a public bucket every entry that is not blank sends its keys there. */
  lemma EntriesCaptureTheirKeys(env: Env, entries: seq<string>, i: nat, rest: string)
    requires WellRouted(env) && NeonProvider(env).publicBucket.Some?
    requires i < |entries| && NoCommas(entries) && Sets(env, PREFIXES, Join(entries))
    requires Trim(entries[i]) != ""
    ensures NeonProvider(env).BucketFor(Trim(entries[i]) + "/" + rest) == NeonProvider(env).publicBucket.value
  {
    PrefixesAreTheEntries(env, entries, Trim(entries[i]));
    PrefixesCaptureTheirKeys(env, Trim(entries[i]), rest);
  }

  /** And no other first segment does. */
  lemma NothingElseIsCaptured(env: Env, entries: seq<string>, segment: string, rest: string)
    requires WellRouted(env) && NeonProvider(env).publicBucket.Some? && '/' !in segment
    requires entries != [] && NoCommas(entries) && Sets(env, PREFIXES, Join(entries))
    requires segment == "" || forall i :: 0 <= i < |entries| ==> Trim(entries[i]) != segment
    ensures NeonProvider(env).BucketFor(segment + "/" + rest) == NeonProvider(env).bucket
  {
    PrefixesAreTheEntries(env, entries, segment);
    PrefixesCaptureTheirKeys(env, segment, rest);
  }

  /** And every public bucket gets some: its first prefix's. */
  lemma SomethingIsPublic(env: Env, rest: string)
    requires WellRouted(env) && NeonProvider(env).publicBucket.Some?
    ensures PublicPrefixes(env) != []
         && NeonProvider(env).BucketFor(PublicPrefixes(env)[0] + "/" + rest) == NeonProvider(env).publicBucket.value
         && NeonProvider(env).publicBucket.value != NeonProvider(env).bucket
  {
    PrefixesCaptureTheirKeys(env, PublicPrefixes(env)[0], rest);
    BucketsDiffer(env);
  }

  lemma NothingToTrim(s: string)
    requires s != "" && !IsSpace(s[0]) && !IsSpace(s[|s| - 1])
    ensures Trim(s) == s
  {
  }

  lemma TwoEntries(env: Env, a: string, b: string, p: string)
    requires a != "" && b != "" && Trim(a) == a && Trim(b) == b && ',' !in a && ',' !in b
    requires Sets(env, PREFIXES, a + [','] + b)
    ensures p in PublicPrefixes(env) <==> p == a || p == b
  {
    JoinTwo(a, b);
    PrefixesAreTheEntries(env, [a, b], p);
    EntryOfTwo(a, b, p);
  }

  lemma JoinTwo(a: string, b: string)
    ensures Join([a, b]) == a + [','] + b
  {
    assert [a, b][1..] == [b];
  }

  lemma EntryOfTwo(a: string, b: string, p: string)
    requires a != "" && b != "" && Trim(a) == a && Trim(b) == b
    ensures IsEntry([a, b], p) <==> p == a || p == b
  {
    assert Trim([a, b][0]) == a && Trim([a, b][1]) == b;
  }

  /** Left unset, the setting is its default. */
  lemma UnsetIsDefault(env: Env, a: string, b: string, p: string)
    requires a != "" && b != "" && Trim(a) == a && Trim(b) == b && ',' !in a && ',' !in b
    requires PREFIXES !in env && DEFAULT_PREFIXES == a + [','] + b
    ensures p in PublicPrefixes(env) <==> p == a || p == b
  {
    TwoEntries(env[PREFIXES := a + [','] + b], a, b, p);
  }

  /** Left unset, avatars and receipts are public. */
  lemma DefaultPrefixes(env: Env, p: string)
    requires PREFIXES !in env
    ensures p in PublicPrefixes(env) <==> p == "avatars" || p == "receipts"
  {
    NothingToTrim("avatars");
    NothingToTrim("receipts");
    assert DEFAULT_PREFIXES == "avatars" + [','] + "receipts";
    UnsetIsDefault(env, "avatars", "receipts", p);
  }

  /** The buckets are the settings, the public one trimmed, unless that leaves nothing. */
  lemma BucketsAreTheSettings(env: Env, name: string, publicName: string)
    requires Sets(env, "STORAGE_NEON_BUCKET", name) && Sets(env, "STORAGE_NEON_PUBLIC_BUCKET", publicName)
    ensures NeonProvider(env).bucket == name
    ensures NeonProvider(env).publicBucket == if Trim(publicName) != "" then Some(Trim(publicName)) else None
  {
  }

  lemma NoPublicBucket(env: Env, key: string)
    requires "STORAGE_NEON_PUBLIC_BUCKET" !in env
    ensures NeonProvider(env).BucketFor(key) == NeonProvider(env).bucket
  {
  }

  /** The addresses an environment gives: below the public base if there is one, else endpoint, bucket and key. */
  lemma NeonAddress(env: Env, key: string, base: string, endpoint: string)
    requires SafeKey(key)
    requires Sets(env, "STORAGE_PUBLIC_BASE_URL", base) || ("STORAGE_PUBLIC_BASE_URL" !in env && base == "")
    requires Sets(env, "AWS_ENDPOINT_URL_S3", endpoint) && endpoint != ""
    ensures NeonProvider(env).GetUrl(key)
         == (if base != "" then StripTrailingSlashes(base)
             else StripTrailingSlashes(endpoint) + "/" + NeonProvider(env).BucketFor(key)) + "/" + key
  {
    UrlShape(NeonProvider(env), key);
  }

  predicate Filled(env: Env, name: string) {
    name in env && Trim(env[name]) != ""
  }

  predicate Uses(env: Env, driver: string) {
    Sets(env, "STORAGE_DRIVER", driver)
  }

  /** The Neon driver is accepted exactly with endpoint, region, both keys and the bucket; the default driver needs nothing. */
  lemma CredentialsExactly(env: Env)
    ensures Uses(env, "neon") ==>
              (HasCredentials(env) <==>
               Filled(env, "AWS_ENDPOINT_URL_S3") && Filled(env, "AWS_REGION") && Filled(env, "AWS_ACCESS_KEY_ID")
               && Filled(env, "AWS_SECRET_ACCESS_KEY") && Filled(env, "STORAGE_NEON_BUCKET"))
    ensures Uses(env, "s3-compatible") ==>
              (HasCredentials(env) <==>
               Filled(env, "STORAGE_S3_BUCKET") && Filled(env, "STORAGE_S3_ACCESS_KEY_ID") && Filled(env, "STORAGE_S3_SECRET_ACCESS_KEY"))
    ensures Uses(env, "cloudinary") ==>
              (HasCredentials(env) <==>
               Filled(env, "STORAGE_CLOUDINARY_CLOUD_NAME") && Filled(env, "STORAGE_CLOUDINARY_API_KEY")
               && Filled(env, "STORAGE_CLOUDINARY_API_SECRET"))
    ensures Uses(env, "local") || "STORAGE_DRIVER" !in env ==> HasCredentials(env)
  {
    AllOf(env, RequiredByDriver("neon"));
    AllOf(env, RequiredByDriver("s3-compatible"));
    AllOf(env, RequiredByDriver("cloudinary"));
  }

  lemma AllOf(env: Env, names: seq<string>)
    ensures |names| == 3 ==> (AllPresent(env, names) <==> Filled(env, names[0]) && Filled(env, names[1]) && Filled(env, names[2]))
    ensures |names| == 5 ==> (AllPresent(env, names) <==>
              Filled(env, names[0]) && Filled(env, names[1]) && Filled(env, names[2]) && Filled(env, names[3]) && Filled(env, names[4]))
  {
  }

  /** The rule is needed: a prefix with a slash captures no key at all. */
  lemma SlashCapturesNothing(prefix: string, key: string)
    requires '/' in prefix
    ensures FirstSegment(key) != prefix
  {
    PartsHaveNoSeparator(key, '/');
  }
}
