/** The bucket locator and object-key construction of `src/aws-uploader.ts`. */
module AwsUploader {
  import opened Results
  import opened Types
  import Utils

  /* ---------------------------------------------------------------------- */
  /* The pattern /https:\/\/([\w\W]+).s3.([\w\W]+).amazonaws.com/           */
  /* ---------------------------------------------------------------------- */

  /** Characters a JavaScript `.` (without the `s` flag) refuses. */
  predicate IsLineTerminator(c: char) {
    c == '\n' || c == '\r' || c == '\U{2028}' || c == '\U{2029}'
  }

  /** What an unescaped `.` in the pattern accepts: any one character except
      a line terminator. */
  predicate DotAccepts(c: char) {
    !IsLineTerminator(c)
  }

  /** The literal `lit` occurs in `s` at position `i`. */
  predicate LiteralAt(s: string, lit: string, i: nat) {
    i + |lit| <= |s| && s[i..i + |lit|] == lit
  }

  /** `https://` at position `p`. */
  predicate SchemeAt(s: string, p: nat) {
    LiteralAt(s, "https://", p)
  }

  /** `.s3.` (both dots wildcards) at position `e`, right after group 1. */
  predicate S3SeparatorAt(s: string, e: nat) {
    e + 4 <= |s| && DotAccepts(s[e]) && s[e + 1] == 's' && s[e + 2] == '3' && DotAccepts(s[e + 3])
  }

  /** `.amazonaws.com` (both dots wildcards) at position `e`, right after group 2. */
  predicate HostSuffixAt(s: string, e: nat) {
    e + 14 <= |s| && DotAccepts(s[e]) && LiteralAt(s, "amazonaws", e + 1)
    && DotAccepts(s[e + 10]) && LiteralAt(s, "com", e + 11)
  }

  /** One way the pattern can match: it starts at `start`, group 1 is
      `s[start + 8 .. end1]` and group 2 is `s[end1 + 4 .. end2]`. The groups
      are `[\w\W]+`, so any non-empty text fills them. */
  datatype Match = Match(start: nat, end1: nat, end2: nat)

  /** Everything after the scheme lines up for `m`. */
  predicate MatchesAfterScheme(s: string, m: Match) {
    && m.start + 8 < m.end1
    && S3SeparatorAt(s, m.end1)
    && m.end1 + 4 < m.end2
    && HostSuffixAt(s, m.end2)
  }

  /** `m` is a match of the pattern in `s`. */
  predicate IsMatch(s: string, m: Match) {
    SchemeAt(s, m.start) && MatchesAfterScheme(s, m)
  }

  /** The backtracking preference of the regular-expression engine: an
      earlier start first, then (greedy group 1) a later end of group 1, then
      (greedy group 2) a later end of group 2. */
  predicate PreferredTo(m: Match, other: Match) {
    || m.start < other.start
    || (m.start == other.start && m.end1 > other.end1)
    || (m.start == other.start && m.end1 == other.end1 && m.end2 >= other.end2)
  }

  function Group1(s: string, m: Match): string
    requires IsMatch(s, m)
  {
    s[m.start + 8 .. m.end1]
  }

  function Group2(s: string, m: Match): string
    requires IsMatch(s, m)
  {
    s[m.end1 + 4 .. m.end2]
  }

  /** Greedy group 2: the last end `e2` in `(lo, hi]` that the host suffix follows. */
  function LastGroup2End(s: string, lo: nat, hi: nat): (r: Option<nat>)
    ensures r.Some? ==> lo < r.value <= hi && HostSuffixAt(s, r.value)
    ensures r.Some? ==> forall e :: r.value < e <= hi ==> !HostSuffixAt(s, e)
    ensures r.None? ==> forall e :: lo < e <= hi ==> !HostSuffixAt(s, e)
    decreases hi
  {
    if hi <= lo then None
    else if HostSuffixAt(s, hi) then Some(hi)
    else LastGroup2End(s, lo, hi - 1)
  }

  /** Greedy group 1 for a match starting at `p`: try ends `hi`, `hi - 1`, ...
      and take the first one for which the rest of the pattern matches. */
  function SearchGroup1(s: string, p: nat, hi: nat): (r: Option<Match>)
    ensures r.Some? ==> r.value.start == p && r.value.end1 <= hi && MatchesAfterScheme(s, r.value)
    ensures r.Some? ==> forall m: Match :: m.start == p && m.end1 <= hi && MatchesAfterScheme(s, m) ==> PreferredTo(r.value, m)
    ensures r.None? ==> forall m: Match :: m.start == p && m.end1 <= hi ==> !MatchesAfterScheme(s, m)
    decreases hi
  {
    if hi <= p + 8 then None
    else if S3SeparatorAt(s, hi) && LastGroup2End(s, hi + 4, |s|).Some? then
      Some(Match(p, hi, LastGroup2End(s, hi + 4, |s|).value))
    else SearchGroup1(s, p, hi - 1)
  }

  /** The unanchored search: the first start position at which the pattern matches. */
  function SearchFrom(s: string, p: nat): (r: Option<Match>)
    ensures r.Some? ==> p <= r.value.start && IsMatch(s, r.value)
    ensures r.Some? ==> forall m: Match :: p <= m.start && IsMatch(s, m) ==> PreferredTo(r.value, m)
    ensures r.None? ==> forall m: Match :: p <= m.start ==> !IsMatch(s, m)
    decreases |s| - p
  {
    if p + 8 > |s| then None
    else if SchemeAt(s, p) && SearchGroup1(s, p, |s|).Some? then SearchGroup1(s, p, |s|)
    else SearchFrom(s, p + 1)
  }

  /** `s.match(S3_URI_PATTERN)`: the match the engine reports, if any. */
  function MatchS3Uri(s: string): (r: Option<Match>)
    ensures r.Some? ==> IsMatch(s, r.value)
    ensures r.Some? ==> forall m: Match :: IsMatch(s, m) ==> PreferredTo(r.value, m)
    ensures r.None? <==> forall m: Match :: !IsMatch(s, m)
  {
    SearchFrom(s, 0)
  }

  /* ---------------------------------------------------------------------- */
  /* getS3Url                                                               */
  /* ---------------------------------------------------------------------- */

  /** `getS3Url`, with the configured URI as a parameter: the two capture
      groups of the reported match, or an error when there is no match or a
      group is empty. */
  function GetS3Url(uri: string): (r: Result<S3Url, Error>)
    ensures r.Failure? <==> forall m: Match :: !IsMatch(uri, m)
    ensures r.Failure? ==> r.error == S3UriNoMatches(uri)
    ensures r.Success? ==> r.value.bucketName != "" && r.value.region != ""
    ensures r.Success? ==> && MatchS3Uri(uri).Some?
                           && r.value.bucketName == Group1(uri, MatchS3Uri(uri).value)
                           && r.value.region == Group2(uri, MatchS3Uri(uri).value)
  {
    match MatchS3Uri(uri)
    case None => Failure(S3UriNoMatches(uri))
    case Some(m) =>
      var bucketName := Group1(uri, m);
      var region := Group2(uri, m);
      if bucketName == "" || region == "" then Failure(S3UriMissingParts)
      else Success(S3Url(bucketName, region))
  }

  /** A typical virtual-hosted bucket URI. */
  const ExampleUri := "https://my-bucket.s3.us-east-1.amazonaws.com"

  lemma ExampleUriScheme()
    ensures ExampleUri[0..8] == "https://"
  {
    var s := "https://my-bucket.s3.us-east-1.amazonaws.com";
    assert s == "https://" + "my-bucket.s3.us-east-1.amazonaws.com";
    assert s[0..8] == "https://";
    assert ExampleUri == s;
  }

  lemma ExampleUriBucket()
    ensures ExampleUri[8..17] == "my-bucket"
  {
    var s := "https://my-bucket.s3.us-east-1.amazonaws.com";
    assert s == "https://" + "my-bucket" + ".s3.us-east-1.amazonaws.com";
    assert s[8..17] == "my-bucket";
    assert ExampleUri == s;
  }

  lemma ExampleUriRegion()
    ensures ExampleUri[21..30] == "us-east-1"
  {
    var s := "https://my-bucket.s3.us-east-1.amazonaws.com";
    assert s == "https://my-bucket.s3." + "us-east-1" + ".amazonaws.com";
    assert s[21..30] == "us-east-1";
    assert ExampleUri == s;
  }

  lemma ExampleUriMatch()
    ensures IsMatch(ExampleUri, Match(0, 17, 30))
  {
    ExampleUriScheme();
    assert ExampleUri[31..40] == "amazonaws";
    assert ExampleUri[41..44] == "com";
  }

  lemma ExampleUriSeparatorOnlyAfterBucket(e: nat)
    requires 17 < e < 26
    ensures !S3SeparatorAt(ExampleUri, e)
  {
  }

  /** The example URI yields bucket `my-bucket` in region `us-east-1`. */
  lemma ExampleUriParses()
    ensures GetS3Url(ExampleUri) == Success(S3Url("my-bucket", "us-east-1"))
  {
    var expected := Match(0, 17, 30);
    ExampleUriMatch();
    ExampleUriBucket();
    ExampleUriRegion();
    var m := MatchS3Uri(ExampleUri).value;
    assert PreferredTo(m, expected);
    if m.end1 != 17 {
      ExampleUriSeparatorOnlyAfterBucket(m.end1);
    }
    assert m == expected;
  }

  /** The greedy region group swallows a repeated host suffix: appending
      `.amazonaws.com` to the example URI moves it into the region. */
  lemma GreedyRegionAbsorbsSuffix()
    ensures GetS3Url(ExampleUri + ".amazonaws.com")
            == Success(S3Url("my-bucket", "us-east-1.amazonaws.com"))
  {
    var s := ExampleUri + ".amazonaws.com";
    var expected := Match(0, 17, 44);
    LongerUriPieces();
    assert IsMatch(s, expected);
    var m := MatchS3Uri(s).value;
    assert PreferredTo(m, expected);
    if m.end1 != 17 {
      LongerUriSeparatorOnlyAfterBucket(m.end1);
    }
    assert m == expected;
  }

  lemma LongerUriPieces()
    ensures var s := ExampleUri + ".amazonaws.com";
            && s[0..8] == "https://" && s[8..17] == "my-bucket"
            && s[21..44] == "us-east-1.amazonaws.com"
            && s[45..54] == "amazonaws" && s[55..58] == "com"
  {
    var s := ExampleUri + ".amazonaws.com";
    ExampleUriScheme();
    ExampleUriBucket();
    ExampleUriRegionAndHost();
    assert s[0..8] == ExampleUri[0..8];
    assert s[8..17] == ExampleUri[8..17];
    assert s[21..44] == ExampleUri[21..44];
    var suffix := ".amazonaws.com";
    assert suffix == "." + "amazonaws" + "." + "com";
    assert s[45..54] == suffix[1..10] == "amazonaws";
    assert s[55..58] == suffix[11..14] == "com";
  }

  lemma ExampleUriRegionAndHost()
    ensures ExampleUri[21..44] == "us-east-1.amazonaws.com"
  {
    var t := "https://my-bucket.s3.us-east-1.amazonaws.com";
    assert t == "https://my-bucket.s3." + "us-east-1.amazonaws.com";
    assert t[21..44] == "us-east-1.amazonaws.com";
    assert ExampleUri == t;
  }

  lemma LongerUriSeparatorOnlyAfterBucket(e: nat)
    requires 17 < e < 40
    ensures !S3SeparatorAt(ExampleUri + ".amazonaws.com", e)
  {
  }

  /** A character stays in place, shifted by the prefix, when text surrounds the string. */
  lemma CharSurvivesSurroundingText(s: string, i: nat, prefix: string, suffix: string)
    requires i < |s|
    ensures (prefix + s + suffix)[i + |prefix|] == s[i]
  {
    assert (prefix + s + suffix)[i + |prefix|] == (prefix + s)[i + |prefix|];
  }

  /** A literal stays in place, shifted by the prefix, when text surrounds the string. */
  lemma LiteralSurvivesSurroundingText(s: string, lit: string, i: nat, prefix: string, suffix: string)
    requires LiteralAt(s, lit, i)
    ensures LiteralAt(prefix + s + suffix, lit, i + |prefix|)
  {
    var t := prefix + s + suffix;
    assert t[|prefix|..|prefix| + |s|] == s;
    assert t[i + |prefix|..i + |prefix| + |lit|] == s[i..i + |lit|];
  }

  /** The `.s3.` separator stays in place, shifted by the prefix. */
  lemma SeparatorSurvivesSurroundingText(s: string, e: nat, prefix: string, suffix: string)
    requires S3SeparatorAt(s, e)
    ensures S3SeparatorAt(prefix + s + suffix, e + |prefix|)
  {
    CharSurvivesSurroundingText(s, e, prefix, suffix);
    CharSurvivesSurroundingText(s, e + 1, prefix, suffix);
    CharSurvivesSurroundingText(s, e + 2, prefix, suffix);
    CharSurvivesSurroundingText(s, e + 3, prefix, suffix);
  }

  /** The `.amazonaws.com` suffix stays in place, shifted by the prefix. */
  lemma HostSuffixSurvivesSurroundingText(s: string, e: nat, prefix: string, suffix: string)
    requires HostSuffixAt(s, e)
    ensures HostSuffixAt(prefix + s + suffix, e + |prefix|)
  {
    CharSurvivesSurroundingText(s, e, prefix, suffix);
    CharSurvivesSurroundingText(s, e + 10, prefix, suffix);
    LiteralSurvivesSurroundingText(s, "amazonaws", e + 1, prefix, suffix);
    LiteralSurvivesSurroundingText(s, "com", e + 11, prefix, suffix);
  }

  /** The pattern is unanchored: text before and after a matching URI
      leaves a match in place, shifted by the prefix. */
  lemma MatchSurvivesSurroundingText(uri: string, m: Match, prefix: string, suffix: string)
    requires IsMatch(uri, m)
    ensures IsMatch(prefix + uri + suffix, Match(m.start + |prefix|, m.end1 + |prefix|, m.end2 + |prefix|))
  {
    LiteralSurvivesSurroundingText(uri, "https://", m.start, prefix, suffix);
    SeparatorSurvivesSurroundingText(uri, m.end1, prefix, suffix);
    HostSuffixSurvivesSurroundingText(uri, m.end2, prefix, suffix);
  }

  /** A URI the pattern matches parses, and still parses after arbitrary
      text is put before or after it. */
  lemma ParseSurvivesSurroundingText(uri: string, m: Match, prefix: string, suffix: string)
    requires IsMatch(uri, m)
    ensures GetS3Url(uri).Success?
    ensures GetS3Url(prefix + uri + suffix).Success?
  {
    MatchSurvivesSurroundingText(uri, m, prefix, suffix);
  }

  /** The dots of the pattern are unescaped: any non-line-terminator
      characters in their places still give a successful parse. */
  lemma DotsMatchAnyCharacter(a: char, b: char, c: char, d: char)
    requires DotAccepts(a) && DotAccepts(b) && DotAccepts(c) && DotAccepts(d)
    ensures GetS3Url("https://x" + [a] + "s3" + [b] + "y" + [c] + "amazonaws" + [d] + "com").Success?
  {
    var s := "https://x" + [a] + "s3" + [b] + "y" + [c] + "amazonaws" + [d] + "com";
    assert s[0..8] == "https://";
    assert s[15..24] == "amazonaws";
    assert s[25..28] == "com";
    assert IsMatch(s, Match(0, 9, 14));
  }

  /* ---------------------------------------------------------------------- */
  /* Object key                                                             */
  /* ---------------------------------------------------------------------- */

  /** The provider's spelling of a file extension. */
  function ExtensionName(ext: FileExtension): string {
    match ext
    case MP4 => "MP4"
    case M4A => "M4A"
  }

  /** `toLowerCase` on one character; only ASCII letters are modelled. */
  function LowerChar(c: char): char {
    if 'A' <= c <= 'Z' then (c as int - 'A' as int + 'a' as int) as char else c
  }

  /** `toLowerCase` on a string of ASCII characters. */
  function ToLowerCase(s: string): (r: string)
    ensures |r| == |s|
    ensures forall i :: 0 <= i < |s| ==> r[i] == LowerChar(s[i])
  {
    if |s| == 0 then [] else [LowerChar(s[0])] + ToLowerCase(s[1..])
  }

  /** The object key of `uploadToBucket`: the file id, a dot, and the lower-cased extension. */
  function FileKey(file: RecordingFile): (key: string)
    ensures |key| == |file.id| + 4
    ensures key[..|file.id|] == file.id && key[|file.id|] == '.'
    ensures key[|file.id| + 1..] == ToLowerCase(ExtensionName(file.fileExtension))
  {
    file.id + "." + ToLowerCase(ExtensionName(file.fileExtension))
  }

  /** The key ends in `.mp4` or `.m4a` after the unchanged id. */
  lemma FileKeyShape(file: RecordingFile)
    ensures file.fileExtension == MP4 ==> FileKey(file) == file.id + ".mp4"
    ensures file.fileExtension == M4A ==> FileKey(file) == file.id + ".m4a"
  {
  }

  /** Recover the id and the extension from an object key. */
  function ParseFileKey(key: string): (r: Option<(string, FileExtension)>)
    ensures r.Some? ==> |r.value.0| + 4 == |key| && r.value.0 == key[..|key| - 4]
  {
    if |key| < 4 then None
    else if key[|key| - 4..] == ".mp4" then Some((key[..|key| - 4], MP4))
    else if key[|key| - 4..] == ".m4a" then Some((key[..|key| - 4], M4A))
    else None
  }

  /** Parsing an object key gives back the file's id and extension. */
  lemma ParseFileKeyRoundTrip(file: RecordingFile)
    ensures ParseFileKey(FileKey(file)) == Some((file.id, file.fileExtension))
  {
    FileKeyShape(file);
    var key := FileKey(file);
    assert key[..|key| - 4] == file.id;
  }

  /** Two files share an object key only when they share id and extension. */
  lemma FileKeyInjective(f: RecordingFile, g: RecordingFile)
    ensures FileKey(f) == FileKey(g) <==> f.id == g.id && f.fileExtension == g.fileExtension
  {
    ParseFileKeyRoundTrip(f);
    ParseFileKeyRoundTrip(g);
  }

  /** The items of one notification are uploaded under pairwise distinct keys. */
  lemma QueuedKeysDistinct(items: seq<QueueItem>)
    requires Utils.DistinctIds(items)
    ensures forall i, j :: 0 <= i < j < |items| ==> FileKey(items[i].fileInfo) != FileKey(items[j].fileInfo)
  {
    forall i, j | 0 <= i < j < |items|
      ensures FileKey(items[i].fileInfo) != FileKey(items[j].fileInfo)
    {
      FileKeyInjective(items[i].fileInfo, items[j].fileInfo);
    }
  }

  /* ---------------------------------------------------------------------- */
  /* The upload target                                                      */
  /* ---------------------------------------------------------------------- */

  const AccessKeyIdVariable := "AWS_ACCESS_KEY_ID"
  const SecretAccessKeyVariable := "AWS_SECRET_ACCESS_KEY"

  /** Everything `uploadToBucket` hands to the storage SDK besides the byte stream. */
  datatype UploadRequest = UploadRequest(
    bucket: string,
    region: string,
    key: string,
    accessKeyId: string,
    secretAccessKey: string)

  /** The part of `uploadToBucket` before the SDK takes over: the key, the
      bucket location, then the two credentials, each lookup able to throw. */
  function PrepareUpload(s3Uri: string, env: map<string, string>, file: RecordingFile): (r: Result<UploadRequest, Error>)
    ensures r.Success? <==>
              && GetS3Url(s3Uri).Success?
              && Utils.GetEnvironmentVariable(env, AccessKeyIdVariable).Success?
              && Utils.GetEnvironmentVariable(env, SecretAccessKeyVariable).Success?
    ensures GetS3Url(s3Uri).Failure? ==> r == Failure(S3UriNoMatches(s3Uri))
    ensures GetS3Url(s3Uri).Success? && (AccessKeyIdVariable !in env || env[AccessKeyIdVariable] == "") ==>
              r == Failure(MissingEnvironmentVariable(AccessKeyIdVariable))
    ensures && GetS3Url(s3Uri).Success?
            && Utils.GetEnvironmentVariable(env, AccessKeyIdVariable).Success?
            && (SecretAccessKeyVariable !in env || env[SecretAccessKeyVariable] == "") ==>
              r == Failure(MissingEnvironmentVariable(SecretAccessKeyVariable))
    ensures r.Success? ==>
              && r.value.bucket == GetS3Url(s3Uri).value.bucketName
              && r.value.region == GetS3Url(s3Uri).value.region
              && r.value.key == FileKey(file)
              && r.value.accessKeyId == env[AccessKeyIdVariable]
              && r.value.secretAccessKey == env[SecretAccessKeyVariable]
  {
    var fileKey := FileKey(file);
    var location :- GetS3Url(s3Uri);
    var accessKeyId :- Utils.GetEnvironmentVariable(env, AccessKeyIdVariable);
    var secretAccessKey :- Utils.GetEnvironmentVariable(env, SecretAccessKeyVariable);
    Success(UploadRequest(location.bucketName, location.region, fileKey, accessKeyId, secretAccessKey))
  }

  /** The upload target ignores the file's size and download URL. */
  lemma UploadTargetIgnoresSizeAndUrl(s3Uri: string, env: map<string, string>, f: RecordingFile, g: RecordingFile)
    requires f.id == g.id && f.fileExtension == g.fileExtension
    ensures PrepareUpload(s3Uri, env, f) == PrepareUpload(s3Uri, env, g)
  {
  }
}
