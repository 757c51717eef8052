/** Object references across the two languages: the Go API server mints and checks
    s3:// refs, the Python runner resolves them to a bucket and a key. */
module Refs {
  import opened Simulations

  /** Configured bucket names; the runner and the API server share them. */
  datatype Buckets = Buckets(models: string, weather: string, results: string)

  datatype Kind = Model | Weather

  const SCHEME: string := "s3://"

  predicate Has(s: string, stops: set<char>) { exists k :: 0 <= k < |s| && s[k] in stops }

  /** The part of s before the first character of `stops`. */
  function Until(s: string, stops: set<char>): (r: string)
    ensures r <= s && !Has(r, stops)
    ensures |r| == |s| || s[|r|] in stops
    ensures r == s <==> !Has(s, stops)
  {
    if s == "" || s[0] in stops then
      assert s != "" ==> s[0] in stops;
      ""
    else
      var r := Until(s[1..], stops);
      assert Has(s, stops) ==> Has(s[1..], stops) by {
        if Has(s, stops) {
          var k :| 0 <= k < |s| && s[k] in stops;
          assert s[1..][k - 1] in stops;
        }
      }
      assert Has(s[1..], stops) ==> Has(s, stops) by {
        if Has(s[1..], stops) {
          var k :| 0 <= k < |s[1..]| && s[1..][k] in stops;
          assert s[k + 1] in stops;
        }
      }
      [s[0]] + r
  }

  /* ---- Go: minting and validation ---- */

  /** Characters basenameSanitize leaves alone. */
  predicate Plain(c: char) {
    'A' <= c <= 'Z' || 'a' <= c <= 'z' || '0' <= c <= '9' || c == '.' || c == '_' || c == '-'
  }

  predicate AllPlain(s: string) { forall k :: 0 <= k < |s| ==> Plain(s[k]) }

  function Sanitize(s: string): (r: string)
    ensures |r| == |s| && AllPlain(r)
    ensures forall k :: 0 <= k < |s| ==>
      r[k] == if 'A' <= s[k] <= 'Z' || 'a' <= s[k] <= 'z' || '0' <= s[k] <= '9'
                 || s[k] == '.' || s[k] == '_' || s[k] == '-'
              then s[k] else '_'
    ensures r == s <==> AllPlain(s)
  {
    if s == "" then "" else
      assert AllPlain(s) <==> Plain(s[0]) && AllPlain(s[1..]) by {
        assert forall k :: 1 <= k < |s| ==> s[k] == s[1..][k - 1];
      }
      [if Plain(s[0]) then s[0] else '_'] + Sanitize(s[1..])
  }

  function BucketOf(b: Buckets, kind: Kind): string {
    match kind
    case Model => b.models
    case Weather => b.weather
  }

  function LogicalOf(kind: Kind): string {
    match kind
    case Model => "models"
    case Weather => "weather"
  }

  /** The object key of an upload: `base` is path.Base of the trimmed file name. None is
      the 'filename is required' reply. */
  function UploadKey(base: string, sha256: string, user: UserId): Option<string> {
    var name := Sanitize(base);
    if name == "" || name == "." || name == "/" then None
    else if sha256 != "" then Some("uploads/" + sha256 + "-" + name)
    else Some("uploads/" + user + "/" + name)
  }

  function RefTo(bucket: string, key: string): string { SCHEME + bucket + "/" + key }

  function ParseS3URI(uri: string): (string, string) {
    if SCHEME <= uri then
      var rest := uri[|SCHEME|..];
      var bucket := Until(rest, {'/'});
      (bucket, if |bucket| == |rest| then "" else rest[|bucket| + 1..])
    else ("", "")
  }

  predicate ValidInputRef(b: Buckets, ref: string, kind: Kind) {
    var (bucket, key) := ParseS3URI(ref);
    bucket != "" && key != "" && (bucket == LogicalOf(kind) || bucket == BucketOf(b, kind))
  }

  /* ---- Python: resolution ---- */

  // urlparse drops these characters wherever they stand.
  const DROPPED: set<char> := {'\t', '\r', '\n'}

  function Dropped(s: string): (r: string)
    ensures |r| <= |s|
  {
    if s == "" then ""
    else if s[0] in DROPPED then Dropped(s[1..])
    else [s[0]] + Dropped(s[1..])
  }

  lemma {:induction false} DroppedSame(s: string)
    ensures Dropped(s) == s <==> !Has(s, DROPPED)
    ensures |Dropped(s)| == |s| ==> Dropped(s) == s
  {
    if s != "" {
      DroppedSame(s[1..]);
      if !Has(s, DROPPED) {
        assert s[0] !in DROPPED;
        forall k | 0 <= k < |s| - 1 ensures s[1..][k] !in DROPPED { assert s[k + 1] !in DROPPED; }
      } else {
        var k :| 0 <= k < |s| && s[k] in DROPPED;
        if k > 0 { assert s[1..][k - 1] in DROPPED; }
      }
    }
  }

  /** urlparse of a ref whose text starts with s3://: netloc and path. */
  function UrlParse(ref: string): (string, string)
    requires SCHEME <= ref
  {
    var rest := Dropped(ref[|SCHEME|..]);
    var netloc := Until(rest, {'/', '?', '#'});
    (netloc, Until(rest[|netloc|..], {'?', '#'}))
  }

  function StripSlashes(s: string): (r: string)
    ensures |r| <= |s| && (r == s <==> s == "" || s[0] != '/')
  {
    if s != "" && s[0] == '/' then StripSlashes(s[1..]) else s
  }

  function ResolveBucket(b: Buckets, netloc: string): string {
    match netloc
    case "models" => b.models
    case "weather" => b.weather
    case "results" => b.results
    case _ => netloc
  }

  /** The bucket and key `download` asks S3 for. */
  function Target(b: Buckets, ref: string): (string, string)
    requires SCHEME <= ref
  {
    var (netloc, path) := UrlParse(ref);
    (ResolveBucket(b, netloc), StripSlashes(path))
  }

  /* ---- Round trip ---- */

  lemma {:induction false} DroppedAppend(a: string, b: string)
    ensures Dropped(a + b) == Dropped(a) + Dropped(b)
  {
    if a == "" {
      assert a + b == b;
    } else {
      assert (a + b)[1..] == a[1..] + b;
      DroppedAppend(a[1..], b);
    }
  }

  lemma {:induction false} UntilAt(a: string, b: string, stops: set<char>)
    requires !Has(a, stops) && b != "" && b[0] in stops
    ensures Until(a + b, stops) == a
  {
    if a == "" {
      assert a + b == b;
    } else {
      assert (a + b)[1..] == a[1..] + b;
      assert a[0] !in stops;
      forall k | 0 <= k < |a[1..]| ensures a[1..][k] !in stops {
        assert a[k + 1] !in stops;
      }
      UntilAt(a[1..], b, stops);
    }
  }

  lemma PlainStops(s: string, stops: set<char>)
    requires AllPlain(s) && forall c :: c in stops ==> !Plain(c)
    ensures !Has(s, stops)
  {
  }

  /** Parsing and stripping the path of a key. */
  lemma PathOf(k: string)
    ensures StripSlashes(Until("/" + k, {'?', '#'})) == StripSlashes(Until(k, {'?', '#'}))
  {
    var r := Until(k, {'?', '#'});
    assert ("/" + k)[1..] == k;
    assert Until("/" + k, {'?', '#'}) == "/" + r;
    assert ("/" + r)[1..] == r;
  }

  lemma DroppedRef(bucket: string, key: string)
    requires AllPlain(bucket)
    ensures Dropped(bucket + "/" + key) == bucket + ("/" + Dropped(key))
  {
    var head := bucket + "/";
    assert !Has(head, DROPPED);
    DroppedSame(head);
    DroppedAppend(head, key);
    assert head + Dropped(key) == bucket + ("/" + Dropped(key));
  }

  lemma RestOf(bucket: string, key: string)
    requires AllPlain(bucket)
    ensures Dropped(RefTo(bucket, key)[|SCHEME|..]) == bucket + ("/" + Dropped(key))
  {
    assert RefTo(bucket, key)[|SCHEME|..] == bucket + "/" + key;
    DroppedRef(bucket, key);
  }

  lemma NetlocOf(bucket: string, path: string)
    requires AllPlain(bucket) && path != "" && path[0] == '/'
    ensures Until(bucket + path, {'/', '?', '#'}) == bucket && (bucket + path)[|bucket|..] == path
  {
    PlainStops(bucket, {'/', '?', '#'});
    UntilAt(bucket, path, {'/', '?', '#'});
  }

  /** The runner's URL parser finds the bucket the API server saw, whatever the key. */
  lemma UrlOf(bucket: string, key: string)
    requires AllPlain(bucket)
    ensures UrlParse(RefTo(bucket, key)) == (bucket, Until("/" + Dropped(key), {'?', '#'}))
  {
    RestOf(bucket, key);
    NetlocOf(bucket, "/" + Dropped(key));
  }

  /** What the runner resolves a ref into a plainly named bucket to, whatever the key. */
  lemma TargetOf(b: Buckets, bucket: string, key: string)
    requires AllPlain(bucket)
    ensures Target(b, RefTo(bucket, key)) == (ResolveBucket(b, bucket), StripSlashes(Until(Dropped(key), {'?', '#'})))
  {
    UrlOf(bucket, key);
    PathOf(Dropped(key));
  }

  /** The key survives the URL parser exactly when nothing in it is cut at, dropped or
      stripped. */
  predicate Survives(key: string) {
    !Has(key, {'?', '#'}) && !Has(key, DROPPED) && (key == "" || key[0] != '/')
  }

  lemma SurvivesMeans(key: string)
    ensures Survives(key) <==>
      '?' !in key && '#' !in key && '\t' !in key && '\r' !in key && '\n' !in key && (key == "" || key[0] != '/')
  {
    if Survives(key) {
      assert forall c :: c in key ==> exists k :: 0 <= k < |key| && key[k] == c;
    }
  }

  lemma TargetIsKeyIff(b: Buckets, bucket: string, key: string)
    requires AllPlain(bucket)
    ensures Target(b, RefTo(bucket, key)) == (ResolveBucket(b, bucket), key) <==> Survives(key)
  {
    TargetOf(b, bucket, key);
    DroppedSame(key);
    var k := Dropped(key);
    var r := Until(k, {'?', '#'});
    assert StripSlashes(r) == key ==> |r| == |k| == |key| && r == k == key;
  }

  lemma ParseRef(bucket: string, key: string)
    requires !Has(bucket, {'/'})
    ensures ParseS3URI(RefTo(bucket, key)) == (bucket, key)
  {
    assert RefTo(bucket, key)[|SCHEME|..] == bucket + ("/" + key);
    UntilAt(bucket, "/" + key, {'/'});
    assert (bucket + ("/" + key))[|bucket| + 1..] == key;
  }

  lemma ParsedRef(ref: string)
    requires ParseS3URI(ref).1 != ""
    ensures ref == RefTo(ParseS3URI(ref).0, ParseS3URI(ref).1) && !Has(ParseS3URI(ref).0, {'/'})
  {
    var rest := ref[|SCHEME|..];
    var bucket := Until(rest, {'/'});
    assert rest == bucket + "/" + rest[|bucket| + 1..];
    assert ref == SCHEME + rest;
  }

  /** A ref into the kind's bucket, by its logical or its configured name. */
  predicate Names(b: Buckets, ref: string, kind: Kind, bucket: string, key: string) {
    ref == RefTo(bucket, key) && bucket != "" && key != "" && (bucket == LogicalOf(kind) || bucket == BucketOf(b, kind))
  }

  lemma NamedIsValid(b: Buckets, ref: string, kind: Kind, bucket: string, key: string)
    requires Names(b, ref, kind, bucket, key) && !Has(bucket, {'/'})
    ensures ValidInputRef(b, ref, kind)
  {
    ParseRef(bucket, key);
  }

  lemma ValidIsNamed(b: Buckets, ref: string, kind: Kind)
    requires ValidInputRef(b, ref, kind)
    ensures Names(b, ref, kind, ParseS3URI(ref).0, ParseS3URI(ref).1)
  {
    ParsedRef(ref);
  }

  lemma NamedHasNoSlash(b: Buckets, ref: string, kind: Kind, bucket: string, key: string)
    requires Names(b, ref, kind, bucket, key) && !Has(BucketOf(b, kind), {'/'})
    ensures !Has(bucket, {'/'})
  {
    PlainStops(LogicalOf(kind), {'/'});
  }

  /** Validation accepts exactly the refs into the kind's bucket, under its logical or
      its configured name; no other scheme, path or bucket gets through. */
  lemma ValidIff(b: Buckets, ref: string, kind: Kind)
    requires !Has(BucketOf(b, kind), {'/'})
    ensures ValidInputRef(b, ref, kind) <==> exists bucket, key :: Names(b, ref, kind, bucket, key)
  {
    if ValidInputRef(b, ref, kind) { ValidIsNamed(b, ref, kind); }
    if bucket, key :| Names(b, ref, kind, bucket, key) {
      NamedHasNoSlash(b, ref, kind, bucket, key);
      NamedIsValid(b, ref, kind, bucket, key);
    }
  }

  /** The same in characters: a model's ref is s3://, then "models" or the models bucket,
      then a slash and a key; a weather file's likewise. */
  lemma ValidMeans(b: Buckets, bucket: string, key: string)
    requires !Has(b.models, {'/'}) && !Has(b.weather, {'/'}) && !Has(bucket, {'/'})
    ensures ValidInputRef(b, "s3://" + bucket + "/" + key, Model) <==>
      bucket != "" && key != "" && (bucket == "models" || bucket == b.models)
    ensures ValidInputRef(b, "s3://" + bucket + "/" + key, Weather) <==>
      bucket != "" && key != "" && (bucket == "weather" || bucket == b.weather)
  {
    ParseRef(bucket, key);
    assert RefTo(bucket, key) == "s3://" + bucket + "/" + key;
  }

  lemma OtherSchemesInvalid(b: Buckets, ref: string, kind: Kind)
    requires |ref| < 5 || ref[..5] != "s3://"
    ensures !ValidInputRef(b, ref, kind)
  {
    if |ref| >= 5 { assert SCHEME <= ref <==> ref[..5] == SCHEME; }
  }

  lemma LogicalResolves(b: Buckets, kind: Kind)
    ensures ResolveBucket(b, LogicalOf(kind)) == BucketOf(b, kind) && AllPlain(LogicalOf(kind))
  {
  }

  /** The check in Go holds in Python: the runner takes a validated ref from the very
      bucket that was checked, and that is the kind's own unless its configured name is
      another kind's logical one. */
  lemma ValidRefStaysInBucket(b: Buckets, ref: string, kind: Kind)
    requires AllPlain(BucketOf(b, kind)) && ValidInputRef(b, ref, kind)
    ensures SCHEME <= ref && Target(b, ref).0 == ResolveBucket(b, ParseS3URI(ref).0)
    ensures ResolveBucket(b, BucketOf(b, kind)) == BucketOf(b, kind) ==> Target(b, ref).0 == BucketOf(b, kind)
  {
    LogicalResolves(b, kind);
    ParsedRef(ref);
    UrlOf(ParseS3URI(ref).0, ParseS3URI(ref).1);
  }

  /** An accepted ref, whoever wrote it, resolves to the key the API server saw exactly
      when that key survives the URL parser. */
  lemma AcceptedRefResolvesIff(b: Buckets, ref: string, kind: Kind)
    requires AllPlain(BucketOf(b, kind)) && ValidInputRef(b, ref, kind)
    ensures var (bucket, key) := ParseS3URI(ref);
      SCHEME <= ref
      && (Target(b, ref) == (ResolveBucket(b, bucket), key) <==>
            '?' !in key && '#' !in key && '\t' !in key && '\r' !in key && '\n' !in key && key[0] != '/')
  {
    SurvivesMeans(ParseS3URI(ref).1);
    LogicalResolves(b, kind);
    ParsedRef(ref);
    TargetIsKeyIff(b, ParseS3URI(ref).0, ParseS3URI(ref).1);
  }

  /** What follows the prefix: a digest and a name, or a user and a name. */
  function KeyTail(base: string, sha256: string, user: UserId): string {
    if sha256 != "" then sha256 + ("-" + Sanitize(base)) else user + ("/" + Sanitize(base))
  }

  lemma KeyIsPrefixed(base: string, sha256: string, user: UserId)
    requires UploadKey(base, sha256, user).Some?
    ensures UploadKey(base, sha256, user) == Some("uploads/" + KeyTail(base, sha256, user))
  {
    var head, name := "uploads/", Sanitize(base);
    if sha256 != "" {
      assert head + sha256 + "-" + name == head + (sha256 + ("-" + name));
    } else {
      assert head + user + "/" + name == head + (user + ("/" + name));
    }
  }

  lemma KeyResolvesIff(b: Buckets, kind: Kind, key: string)
    requires BucketOf(b, kind) != "" && AllPlain(BucketOf(b, kind)) && key != "" && key[0] == 'u'
    ensures ValidInputRef(b, RefTo(BucketOf(b, kind), key), kind)
    ensures Target(b, RefTo(BucketOf(b, kind), key)) == (BucketOf(b, kind), key) <==>
      ResolveBucket(b, BucketOf(b, kind)) == BucketOf(b, kind) && !Has(key, {'?', '#'}) && !Has(key, DROPPED)
  {
    var bucket := BucketOf(b, kind);
    PlainStops(bucket, {'/'});
    NamedIsValid(b, RefTo(bucket, key), kind, bucket, key);
    TargetOf(b, bucket, key);
    TargetIsKeyIff(b, bucket, key);
  }

  /** Every ref the upload endpoint mints passes validation, and the runner resolves it
      to the presigned bucket and key exactly when the bucket's name is not claimed by
      another logical name and the key has none of the characters a URL parser cuts at
      or drops. The client's digest is not checked, so it decides the second part. */
  lemma UploadRoundTripIff(b: Buckets, kind: Kind, base: string, sha256: string, user: UserId)
    requires BucketOf(b, kind) != "" && AllPlain(BucketOf(b, kind))
    requires UploadKey(base, sha256, user).Some?
    ensures var bucket, key := BucketOf(b, kind), UploadKey(base, sha256, user).value;
      && ValidInputRef(b, RefTo(bucket, key), kind)
      && (Target(b, RefTo(bucket, key)) == (bucket, key)
          <==> ResolveBucket(b, bucket) == bucket && !Has(key, {'?', '#'}) && !Has(key, DROPPED))
  {
    var key := UploadKey(base, sha256, user).value;
    KeyIsPrefixed(base, sha256, user);
    KeyResolvesIff(b, kind, key);
  }

  /** Digests, user ids and sanitised names put nothing special into a key. */
  lemma UploadKeyClean(base: string, sha256: string, user: UserId)
    requires AllPlain(sha256) && AllPlain(user) && UploadKey(base, sha256, user).Some?
    ensures var key := UploadKey(base, sha256, user).value; !Has(key, {'?', '#'}) && !Has(key, DROPPED)
  {
    var key := UploadKey(base, sha256, user).value;
    var head := "uploads/";
    assert forall c :: c in head ==> c == '/' || Plain(c);
    assert forall k :: 0 <= k < |key| ==> key[k] in head || Plain(key[k]) || key[k] == '/';
  }

  lemma ResolvesToItselfIff(b: Buckets, bucket: string)
    ensures ResolveBucket(b, bucket) == bucket <==>
      && (bucket == "models" ==> b.models == "models")
      && (bucket == "weather" ==> b.weather == "weather")
      && (bucket == "results" ==> b.results == "results")
  {
  }

  /** For a hexadecimal digest or none, and a uuid, only the bucket names matter: the
      round trip holds exactly when the kind's bucket does not reuse the logical name
      of a kind that is configured elsewhere. */
  lemma UploadRoundTrip(b: Buckets, kind: Kind, base: string, sha256: string, user: UserId)
    requires BucketOf(b, kind) != "" && AllPlain(BucketOf(b, kind))
    requires AllPlain(sha256) && AllPlain(user) && UploadKey(base, sha256, user).Some?
    ensures var bucket, key := BucketOf(b, kind), UploadKey(base, sha256, user).value;
      Target(b, RefTo(bucket, key)) == (bucket, key) <==>
        && (bucket == "models" ==> b.models == "models")
        && (bucket == "weather" ==> b.weather == "weather")
        && (bucket == "results" ==> b.results == "results")
  {
    UploadKeyClean(base, sha256, user);
    UploadRoundTripIff(b, kind, base, sha256, user);
    ResolvesToItselfIff(b, BucketOf(b, kind));
  }

  /** The shape of a key. */
  lemma KeyMeans(base: string, sha256: string, user: UserId)
    ensures UploadKey(base, sha256, user) ==
      if Sanitize(base) == "" || Sanitize(base) == "." then None
      else if sha256 == "" then Some("uploads/" + user + "/" + Sanitize(base))
      else Some("uploads/" + sha256 + "-" + Sanitize(base))
  {
    assert !AllPlain("/") by { assert !Plain("/"[0]); }
  }

  /** A digest with a query mark: the minted ref is accepted and resolves elsewhere. */
  lemma DigestBreaksRef(b: Buckets, kind: Kind, base: string, sha256: string, user: UserId)
    requires BucketOf(b, kind) != "" && AllPlain(BucketOf(b, kind))
    requires '?' in sha256 && UploadKey(base, sha256, user).Some?
    ensures var bucket, key := BucketOf(b, kind), UploadKey(base, sha256, user).value;
      ValidInputRef(b, RefTo(bucket, key), kind) && Target(b, RefTo(bucket, key)) != (bucket, key)
  {
    var key := UploadKey(base, sha256, user).value;
    var k :| 0 <= k < |sha256| && sha256[k] == '?';
    assert key[|"uploads/"| + k] in {'?', '#'};
    UploadRoundTripIff(b, kind, base, sha256, user);
  }

  /** A models bucket named "weather" while the weather bucket is not: the runner looks
      for every uploaded model in the weather bucket. */
  lemma BucketNameBreaksRef(b: Buckets, base: string, sha256: string, user: UserId)
    requires b.models == "weather" && b.weather != "weather" && UploadKey(base, sha256, user).Some?
    ensures var key := UploadKey(base, sha256, user).value;
      && ValidInputRef(b, RefTo(b.models, key), Model)
      && Target(b, RefTo(b.models, key)).0 == b.weather != b.models
  {
    UploadRoundTripIff(b, Model, base, sha256, user);
    TargetOf(b, b.models, UploadKey(base, sha256, user).value);
  }

  /* ---- Keys of different uploads ---- */

  lemma CutAt(a: string, b: string, c: string, d: string, sep: char)
    requires !Has(a, {sep}) && !Has(c, {sep}) && a + ([sep] + b) == c + ([sep] + d)
    ensures a == c && b == d
  {
    UntilAt(a, [sep] + b, {sep});
    UntilAt(c, [sep] + d, {sep});
    assert (a + ([sep] + b))[|a| + 1..] == b;
    assert (c + ([sep] + d))[|c| + 1..] == d;
  }

  lemma TailOf(head: string, tail: string)
    ensures (head + tail)[..|head|] == head && (head + tail)[|head|..] == tail
  {
  }

  /** Only a user's key has a second slash. */
  lemma SortsDiffer(base: string, sha256: string, base': string, user': UserId)
    requires AllPlain(sha256)
    ensures sha256 + ("-" + Sanitize(base)) != user' + ("/" + Sanitize(base'))
  {
    assert AllPlain(sha256 + ("-" + Sanitize(base)));
    assert (user' + ("/" + Sanitize(base')))[|user'|] == '/';
  }

  /** A key binds one object: uploads with hexadecimal digests share a key exactly when
      digest and sanitised name agree, whoever sends them; uploads without share one
      only within a user; and the two sorts never share any. */
  lemma UploadKeysCollideIff(base: string, sha256: string, user: UserId, base': string, sha256': string, user': UserId)
    requires AllPlain(sha256) && !Has(sha256, {'-'}) && AllPlain(user) && UploadKey(base, sha256, user).Some?
    requires AllPlain(sha256') && !Has(sha256', {'-'}) && AllPlain(user') && UploadKey(base', sha256', user').Some?
    ensures UploadKey(base, sha256, user) == UploadKey(base', sha256', user') <==>
      Sanitize(base) == Sanitize(base') && sha256 == sha256' && (sha256 == "" ==> user == user')
  {
    KeyIsPrefixed(base, sha256, user);
    KeyIsPrefixed(base', sha256', user');
    TailOf("uploads/", KeyTail(base, sha256, user));
    TailOf("uploads/", KeyTail(base', sha256', user'));
    if sha256 != "" && sha256' == "" {
      SortsDiffer(base, sha256, base', user');
    } else if sha256 == "" && sha256' != "" {
      SortsDiffer(base', sha256', base, user);
    } else if UploadKey(base, sha256, user) == UploadKey(base', sha256', user') {
      if sha256 != "" {
        CutAt(sha256, Sanitize(base), sha256', Sanitize(base'), '-');
      } else {
        PlainStops(user, {'/'});
        PlainStops(user', {'/'});
        CutAt(user, Sanitize(base), user', Sanitize(base'), '/');
      }
    }
  }

  /* ---- Digests as clients may send them ---- */

  /** d goes on from head with characters a sanitised name may have. */
  predicate Follows(d: string, head: string) { head <= d && AllPlain(d[|head|..]) }

  predicate ShareKey(base: string, sha256: string, user: UserId, base': string, sha256': string, user': UserId) {
    UploadKey(base, sha256, user).Some? && UploadKey(base, sha256, user) == UploadKey(base', sha256', user')
  }

  lemma ShareTail(base: string, sha256: string, user: UserId, base': string, sha256': string, user': UserId)
    requires ShareKey(base, sha256, user, base', sha256', user')
    ensures KeyTail(base, sha256, user) == KeyTail(base', sha256', user')
  {
    KeyIsPrefixed(base, sha256, user);
    KeyIsPrefixed(base', sha256', user');
    TailOf("uploads/", KeyTail(base, sha256, user));
    TailOf("uploads/", KeyTail(base', sha256', user'));
  }

  lemma TailsShare(base: string, sha256: string, user: UserId, base': string, sha256': string, user': UserId)
    requires UploadKey(base, sha256, user).Some? && UploadKey(base', sha256', user').Some?
    requires KeyTail(base, sha256, user) == KeyTail(base', sha256', user')
    ensures ShareKey(base, sha256, user, base', sha256', user')
  {
    KeyIsPrefixed(base, sha256, user);
    KeyIsPrefixed(base', sha256', user');
  }

  lemma PlainName(base: string, sha256: string, user: UserId)
    requires AllPlain(base) && base != "" && base != "."
    ensures Sanitize(base) == base && UploadKey(base, sha256, user).Some?
  {
    assert !AllPlain("/") by { assert !Plain("/"[0]); }
  }

  /** A name of two letters or more, from any plain start. */
  lemma Dashed(t: string)
    requires AllPlain(t)
    ensures AllPlain(t + "-y") && t + "-y" != "" && t + "-y" != "."
  {
    assert |t + "-y"| >= 2;
  }

  lemma NamesShare(n: string, d: string, v: UserId, n': string, d': string, v': UserId)
    requires AllPlain(n) && n != "" && n != "." && AllPlain(n') && n' != "" && n' != "." && d != ""
    requires d + ("-" + n) == if d' != "" then d' + ("-" + n') else v' + ("/" + n')
    ensures ShareKey(n, d, v, n', d', v')
  {
    PlainName(n, d, v);
    PlainName(n', d', v');
    TailsShare(n, d, v, n', d', v');
  }

  lemma Regroup(head: string, sep: string, t: string, tail: string)
    ensures (head + sep + t) + tail == head + (sep + (t + tail))
  {
  }

  /** A tail that can be read as a digest and as a user's: the slash is in the digest. */
  lemma DigestHoldsUser(d: string, n: string, u: string, n': string)
    requires AllPlain(n) && AllPlain(n') && d + ("-" + n) == u + ("/" + n')
    ensures Follows(d, u + "/")
  {
    var x := d + ("-" + n);
    assert x[|u|] == '/' && x[..|u| + 1] == u + "/";
    assert forall j :: |d| < j < |x| ==> x[j] == n[j - |d| - 1];
    assert x[|d|] == '-' && |u| < |d|;
    assert x[..|d|] == d && d[..|u| + 1] == x[..|u| + 1];
    assert forall j :: |u| < j < |d| ==> d[j] == x[j] == n'[j - |u| - 1];
  }

  /** The digest is not checked, so an upload with one can have the key of another
      user's upload without: some file names make the two keys one exactly when the
      digest starts with the user's id and a slash and goes on with allowed characters. */
  lemma DigestReachesUserIff(d: string, v: UserId, u: UserId)
    requires d != ""
    ensures (exists base, base' :: ShareKey(base, d, v, base', "", u)) <==> Follows(d, u + "/")
  {
    if base, base' :| ShareKey(base, d, v, base', "", u) {
      ShareTail(base, d, v, base', "", u);
      DigestHoldsUser(d, Sanitize(base), u, Sanitize(base'));
    }
    if Follows(d, u + "/") { DigestReachesUser(d, v, u); }
  }

  lemma DigestReachesUser(d: string, v: UserId, u: UserId)
    requires Follows(d, u + "/")
    ensures ShareKey("y", d, v, d[|u| + 1..] + "-y", "", u)
  {
    var t := d[|u| + 1..];
    assert d == u + "/" + t && "-" + "y" == "-y";
    Dashed(t);
    Regroup(u, "/", t, "-y");
    NamesShare("y", d, v, t + "-y", "", u);
  }

  lemma LongerFollows(d: string, n: string, d': string, n': string)
    requires AllPlain(n) && |d| < |d'| && d + ("-" + n) == d' + ("-" + n')
    ensures Follows(d', d + "-")
  {
    var x := d + ("-" + n);
    assert x[..|d| + 1] == d + "-" && x[..|d'|] == d' && d'[..|d| + 1] == x[..|d| + 1];
    assert forall j :: |d| < j < |d'| ==> d'[j] == x[j] == n[j - |d| - 1];
  }

  /** Two digests, whoever sends them, can share a key exactly when they are equal or one
      goes on from the other with a dash and allowed characters. */
  lemma DigestsShareIff(d: string, v: UserId, d': string, v': UserId)
    requires d != "" && d' != ""
    ensures (exists base, base' :: ShareKey(base, d, v, base', d', v'))
       <==> d == d' || Follows(d', d + "-") || Follows(d, d' + "-")
  {
    if base, base' :| ShareKey(base, d, v, base', d', v') {
      var n, n' := Sanitize(base), Sanitize(base');
      ShareTail(base, d, v, base', d', v');
      if |d| < |d'| {
        LongerFollows(d, n, d', n');
      } else if |d'| < |d| {
        LongerFollows(d', n', d, n);
      } else {
        assert (d + ("-" + n))[..|d|] == d && (d' + ("-" + n'))[..|d|] == d';
      }
    }
    if d == d' {
      PlainName("y", d, v);
      assert ShareKey("y", d, v, "y", d', v');
    }
    if Follows(d', d + "-") { DigestsShare(d, v, d', v'); }
    if Follows(d, d' + "-") {
      DigestsShare(d', v', d, v);
      assert ShareKey("y", d, v, d[|d'| + 1..] + "-y", d', v');
    }
  }

  lemma DigestsShare(d: string, v: UserId, d': string, v': UserId)
    requires d != "" && Follows(d', d + "-")
    ensures ShareKey(d'[|d| + 1..] + "-y", d, v, "y", d', v')
  {
    var t := d'[|d| + 1..];
    assert d' == d + "-" + t && "-" + "y" == "-y";
    Dashed(t);
    Regroup(d, "-", t, "-y");
    NamesShare(t + "-y", d, v, "y", d', v');
  }
}
