/** Object keys, the bucket each key is routed to, and the URL it is given. */
module StorageKeys {
  import opened Prelude

  // -------------------------------------------------------------------- strings

  predicate EndsWith(s: string, suffix: string) {
    |suffix| <= |s| && s[|s| - |suffix|..] == suffix
  }

  /** `s.split(sep)` */
  function Split(s: string, sep: char): (parts: seq<string>)
    ensures parts != []
  {
    if s == "" then [""]
    else
      var rest := Split(s[1..], sep);
      if s[0] == sep then [""] + rest else [[s[0]] + rest[0]] + rest[1..]
  }

  function FirstSegment(key: string): string {
    Split(key, '/')[0]
  }

  /** `s.replace(/\/+$/, '')` */
  function StripTrailingSlashes(s: string): string {
    if s != "" && s[|s| - 1] == '/' then StripTrailingSlashes(s[..|s| - 1]) else s
  }

  /** `s.replace(/^\/+/, '')` */
  function StripLeadingSlashes(s: string): string {
    if s != "" && s[0] == '/' then StripLeadingSlashes(s[1..]) else s
  }

  /** The text before the first separator is the first part, and the rest is split on its own. */
  lemma {:induction false} SplitHead(a: string, sep: char, b: string)
    requires sep !in a
    ensures Split(a + [sep] + b, sep) == [a] + Split(b, sep)
  {
    var s := a + [sep] + b;
    if a == "" {
      assert s[1..] == b;
    } else {
      assert s[1..] == a[1..] + [sep] + b;
      SplitHead(a[1..], sep, b);
      assert a == [a[0]] + a[1..];
    }
  }

  lemma {:induction false} SplitNone(a: string, sep: char)
    requires sep !in a
    ensures Split(a, sep) == [a]
  {
    if a != "" {
      SplitNone(a[1..], sep);
      assert a == [a[0]] + a[1..];
    }
  }

  lemma {:induction false} PartsHaveNoSeparator(s: string, sep: char)
    ensures forall i :: 0 <= i < |Split(s, sep)| ==> sep !in Split(s, sep)[i]
  {
    if s != "" {
      PartsHaveNoSeparator(s[1..], sep);
      var rest := Split(s[1..], sep);
      if s[0] != sep {
        assert sep !in [s[0]] + rest[0];
      }
    }
  }

  /** A prefix captures the keys filed under it exactly when it is a single segment. */
  lemma PrefixCaptures(prefix: string, rest: string)
    ensures FirstSegment(prefix + "/" + rest) == prefix <==> '/' !in prefix
  {
    if '/' !in prefix {
      SplitHead(prefix, '/', rest);
    } else {
      PartsHaveNoSeparator(prefix + "/" + rest, '/');
    }
  }

  // ----------------------------------------------------------------------- keys

  predicate Alphanumeric(c: char) {
    'A' <= c <= 'Z' || 'a' <= c <= 'z' || '0' <= c <= '9'
  }

  const CAPITALS := "ABCDEFGHIJKLMNOPQRSTUVWXYZ"
  const SMALL_LETTERS := "abcdefghijklmnopqrstuvwxyz"
  const DIGITS := "0123456789"

  lemma Capital(c: char)
    ensures c in CAPITALS <==> 'A' <= c <= 'Z'
  {
    if 'A' <= c <= 'Z' {
      assert CAPITALS[c as int - 65] == c;
    }
  }

  lemma SmallLetter(c: char)
    ensures c in SMALL_LETTERS <==> 'a' <= c <= 'z'
  {
    if 'a' <= c <= 'z' {
      assert SMALL_LETTERS[c as int - 97] == c;
    }
  }

  lemma Digit(c: char)
    ensures c in DIGITS <==> '0' <= c <= '9'
  {
    if '0' <= c <= '9' {
      assert DIGITS[c as int - 48] == c;
    }
  }

  /** The characters are the English letters, large and small, and the digits. */
  lemma AlphanumericExactly(c: char)
    ensures Alphanumeric(c) <==> c in CAPITALS || c in SMALL_LETTERS || c in DIGITS
  {
    Capital(c);
    SmallLetter(c);
    Digit(c);
  }

  /** `assertSafeStorageKey` does not throw. */
  predicate SafeKey(key: string) {
    && key != ""
    && |key| <= 512
    && Alphanumeric(key[0])
    && (forall i :: 0 <= i < |key| ==> Alphanumeric(key[i]) || key[i] in "._/-")
    && !EndsWith(key, "/")
    && (forall i :: 0 <= i < |Split(key, '/')| ==> Split(key, '/')[i] !in ["", ".", ".."])
  }

  predicate SafeSegment(segment: string) {
    && segment != "" && segment != "." && segment != ".."
    && forall i :: 0 <= i < |segment| ==> Alphanumeric(segment[i]) || segment[i] in "._-"
  }

  /** The characters of a split string are those of its parts, and the separator. */
  lemma {:induction false} PartsHaveTheCharacters(s: string, sep: char, c: char)
    requires c != sep
    ensures c in s <==> exists i :: 0 <= i < |Split(s, sep)| && c in Split(s, sep)[i]
  {
    if s != "" {
      var rest := Split(s[1..], sep);
      PartsHaveTheCharacters(s[1..], sep, c);
      var parts := Split(s, sep);
      if s[0] == sep {
        assert forall i :: 0 <= i < |rest| ==> parts[i + 1] == rest[i];
        assert forall i :: 0 < i < |parts| ==> parts[i] == rest[i - 1];
      } else {
        assert parts[0] == [s[0]] + rest[0];
        assert forall i :: 0 < i < |rest| ==> parts[i] == rest[i];
      }
    }
  }

  lemma InPart(s: string, sep: char, i: nat, c: char)
    requires i < |Split(s, sep)| && c in Split(s, sep)[i] && c != sep
    ensures c in s
  {
    PartsHaveTheCharacters(s, sep, c);
  }

  lemma {:induction false} EndsInEmptyPart(s: string, sep: char)
    requires s != ""
    ensures s[|s| - 1] == sep <==> |Split(s, sep)| > 1 && Split(s, sep)[|Split(s, sep)| - 1] == ""
  {
    if |s| == 1 {
      assert s[1..] == "" && Split("", sep) == [""];
    } else {
      EndsInEmptyPart(s[1..], sep);
    }
  }

  predicate KeyCharacters(key: string) {
    forall i :: 0 <= i < |key| ==> Alphanumeric(key[i]) || key[i] in "._/-"
  }

  predicate SegmentCharacters(parts: seq<string>) {
    forall i, j :: 0 <= i < |parts| && 0 <= j < |parts[i]| ==> Alphanumeric(parts[i][j]) || parts[i][j] in "._-"
  }

  /** A key is made of the characters allowed just when its segments are. */
  lemma CharactersBySegments(key: string)
    ensures KeyCharacters(key) <==> SegmentCharacters(Split(key, '/'))
  {
    var parts := Split(key, '/');
    PartsHaveNoSeparator(key, '/');
    if KeyCharacters(key) {
      forall i, j | 0 <= i < |parts| && 0 <= j < |parts[i]| ensures Alphanumeric(parts[i][j]) || parts[i][j] in "._-" {
        var c := parts[i][j];
        assert c in parts[i];
        InPart(key, '/', i, c);
      }
    }
    if SegmentCharacters(parts) {
      forall j | 0 <= j < |key| ensures Alphanumeric(key[j]) || key[j] in "._/-" {
        if key[j] != '/' {
          PartsHaveTheCharacters(key, '/', key[j]);
          var i :| 0 <= i < |parts| && key[j] in parts[i];
        }
      }
    }
  }

  lemma EndsWithSlash(key: string)
    requires key != ""
    ensures EndsWith(key, "/") <==> |Split(key, '/')| > 1 && Split(key, '/')[|Split(key, '/')| - 1] == ""
  {
    EndsInEmptyPart(key, '/');
    assert key[|key| - 1..] == [key[|key| - 1]];
  }

  /**
   The keys accepted are those of at most 512 characters made of segments of
   letters, digits, dots, underscores and dashes, none of them empty, `.` or `..`,
   and beginning with a letter or a digit: no key leads out of its root.
   */
  lemma SafeKeyBySegments(key: string)
    ensures SafeKey(key) <==>
              && key != "" && |key| <= 512 && Alphanumeric(key[0])
              && forall i :: 0 <= i < |Split(key, '/')| ==> SafeSegment(Split(key, '/')[i])
  {
    CharactersBySegments(key);
    if key != "" {
      EndsWithSlash(key);
    }
  }

  function JoinUrl(baseUrl: string, key: string): string {
    StripTrailingSlashes(baseUrl) + "/" + StripLeadingSlashes(key)
  }

  // ------------------------------------------------------------------- provider

  /** The settings of the S3-compatible provider; an empty optional string counts as unset. */
  datatype Provider = Provider(
    bucket: string,
    publicBucket: Option<string>,
    publicKeyPrefixes: seq<string>,
    publicBaseUrl: Option<string>,
    endpoint: Option<string>,
    region: string,
    forcePathStyle: bool)
  {
    function BucketFor(key: string): string {
      if !IsSet(publicBucket) then bucket
      else if FirstSegment(key) in publicKeyPrefixes then publicBucket.value
      else bucket
    }

    /** `base.replace(/^(https?:\/\/)/, '$1' + bucket + '.')` */
    static function PutBucketInHost(base: string, bucket: string): string {
      if "https://" <= base then "https://" + bucket + "." + base[8..]
      else if "http://" <= base then "http://" + bucket + "." + base[7..]
      else base
    }

    function GetUrl(key: string): string {
      if IsSet(publicBaseUrl) then JoinUrl(publicBaseUrl.value, key)
      else if IsSet(endpoint) then
        var base := StripTrailingSlashes(endpoint.value);
        if forcePathStyle then base + "/" + BucketFor(key) + "/" + key
        else PutBucketInHost(base, BucketFor(key)) + ("/" + key)
      else "https://" + BucketFor(key) + ".s3." + region + ".amazonaws.com/" + key
    }

    /** What precedes `/key` in the URL of a key of bucket `b`. */
    function UrlBase(b: string): string {
      if IsSet(publicBaseUrl) then StripTrailingSlashes(publicBaseUrl.value)
      else if IsSet(endpoint) then
        var base := StripTrailingSlashes(endpoint.value);
        if forcePathStyle then base + "/" + b else PutBucketInHost(base, b)
      else "https://" + b + ".s3." + region + ".amazonaws.com"
    }
  }

  predicate IsSet(s: Option<string>) {
    s.Some? && s.value != ""
  }

  /** For every safe key and every URL shape the address is the bucket's base, a slash, the key. */
  lemma UrlShape(p: Provider, key: string)
    requires SafeKey(key)
    ensures p.GetUrl(key) == p.UrlBase(p.BucketFor(key)) + "/" + key
    ensures EndsWith(p.GetUrl(key), "/" + key)
  {
    assert StripLeadingSlashes(key) == key;
    var base := p.UrlBase(p.BucketFor(key));
    assert p.GetUrl(key) == base + ("/" + key) by {
      if !IsSet(p.publicBaseUrl) && !IsSet(p.endpoint) {
        assert ".amazonaws.com/" == ".amazonaws.com" + "/";
      }
    }
    assert (base + ("/" + key))[|base|..] == "/" + key;
  }

  /** In one bucket, different keys have different addresses. */
  lemma UrlInjective(p: Provider, key: string, other: string)
    requires SafeKey(key) && SafeKey(other) && p.BucketFor(key) == p.BucketFor(other)
    requires p.GetUrl(key) == p.GetUrl(other)
    ensures key == other
  {
    UrlShape(p, key);
    UrlShape(p, other);
    var base := p.UrlBase(p.BucketFor(key));
    assert p.GetUrl(key)[|base| + 1..] == key;
    assert p.GetUrl(other)[|base| + 1..] == other;
  }
}
