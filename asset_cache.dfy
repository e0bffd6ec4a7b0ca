/**
 * The content-addressed asset cache (`cache_remote_image`, `cache_remote_media`).
 *
 * A remote asset is stored as `{kind}-{hex sha256(url ++ token)}.{ext}` in a cache
 * directory, and the existence of that file is the cache hit. The directory is modelled as
 * the set of file names in it, and one HTTP exchange as a `Response` value given to the
 * operation, which reports whether it sent the request. SHA-256 and URL parsing are not
 * interpreted: the hex digest function is a parameter, and so is the extension that
 * `Path::extension` reads off the parsed URL path.
 */
module AssetCache {
  import opened Wrappers
  import opened Text

  datatype Kind = Image | Media

  /** The file-name prefix of each kind of asset. */
  function KindName(kind: Kind): string {
    match kind
    case Image => "image"
    case Media => "media"
  }

  /** The extension used when neither the URL nor the content type gives one. */
  function DefaultExtension(kind: Kind): string {
    match kind
    case Image => "png"
    case Media => "bin"
  }

  const MaxImageBytes: nat := 50 * 1024 * 1024
  const MaxMediaBytes: nat := 300 * 1024 * 1024

  /** What a sanitised extension looks like: 2 to 6 lower-case ASCII letters or digits. */
  predicate IsCleanExtension(e: string) {
    2 <= |e| <= 6 && forall k | 0 <= k < |e| :: IsAsciiLowerAlnum(e[k])
  }

  // ---------------------------------------------------------------------------
  // sanitize_extension
  // ---------------------------------------------------------------------------

  /** `trim_start_matches('.')`. */
  function TrimLeadingDots(s: string): (r: string)
    ensures |r| <= |s| && r == s[|s| - |r|..]
    ensures forall k | 0 <= k < |s| - |r| :: s[k] == '.'
    ensures r != [] ==> r[0] != '.'
  {
    if s != [] && s[0] == '.' then TrimLeadingDots(s[1..]) else s
  }

  /** The string `sanitize_extension` inspects: trimmed, without leading dots, lower-cased. */
  function ExtensionCandidate(ext: string): string {
    AsciiLower(TrimLeadingDots(Trim(ext)))
  }

  lemma AlnumIsAscii(t: string)
    ensures (forall k | 0 <= k < |t| :: IsAsciiAlnum(t[k])) ==> Utf8Len(t) == |t|
  {
    if forall k | 0 <= k < |t| :: IsAsciiAlnum(t[k]) {
      Utf8LenAscii(t);
    }
  }

  /** `sanitize_extension`: accepts the candidate when it is 2 to 6 bytes long and all ASCII
      letters and digits. For such text bytes and characters agree, so the accepted cases are
      exactly the candidates of 2 to 6 alphanumeric characters, and what comes back is clean. */
  function SanitizeExtension(ext: string): (r: Option<string>)
    ensures var t := ExtensionCandidate(ext);
      r.Some? <==> 2 <= |t| <= 6 && forall k | 0 <= k < |t| :: IsAsciiAlnum(t[k])
    ensures r.Some? ==> r.value == ExtensionCandidate(ext) && IsCleanExtension(r.value)
  {
    var t := ExtensionCandidate(ext);
    AlnumIsAscii(t);
    if Utf8Len(t) < 2 || Utf8Len(t) > 6 then
      None
    else if !(forall k | 0 <= k < |t| :: IsAsciiAlnum(t[k])) then
      None
    else
      Some(t)
  }

  /** A clean extension is its own sanitisation, so sanitising twice changes nothing. */
  lemma SanitizeIdempotent(ext: string)
    requires SanitizeExtension(ext).Some?
    ensures SanitizeExtension(SanitizeExtension(ext).value) == SanitizeExtension(ext)
  {
    var e := SanitizeExtension(ext).value;
    CleanIsFixed(e);
  }

  lemma CleanIsFixed(e: string)
    requires IsCleanExtension(e)
    ensures Trim(e) == e && TrimLeadingDots(e) == e && AsciiLower(e) == e
    ensures ExtensionCandidate(e) == e
  {
    TrimClean(e);
    LowerClean(e);
    assert e[0] != '.';
  }

  lemma TrimClean(e: string)
    requires IsCleanExtension(e)
    ensures Trim(e) == e
  {
    assert IsAsciiLowerAlnum(e[0]) && IsAsciiLowerAlnum(e[|e| - 1]);
    TrimUntouched(e);
  }

  lemma LowerClean(e: string)
    requires forall k | 0 <= k < |e| :: IsAsciiLowerAlnum(e[k])
    ensures AsciiLower(e) == e
  {
    assert forall k | 0 <= k < |e| :: AsciiLower(e)[k] == e[k];
  }

  /** A leading dot and surrounding blanks make no difference. */
  lemma SanitizeIgnoresDotAndBlanks(e: string)
    requires IsCleanExtension(e)
    ensures SanitizeExtension(" ." + e + " ") == Some(e)
  {
    CandidateOfDotted(e);
    SanitizeClean(" ." + e + " ", e);
  }

  lemma CandidateOfDotted(e: string)
    requires IsCleanExtension(e)
    ensures ExtensionCandidate(" ." + e + " ") == e
  {
    var d := "." + e;
    TrimOfDotted(e);
    assert d[0] == '.' && d[1..] == e;
    CleanIsFixed(e);
    assert TrimLeadingDots(d) == TrimLeadingDots(e);
    calc {
      ExtensionCandidate(" ." + e + " ");
      AsciiLower(TrimLeadingDots(d));
      AsciiLower(e);
    }
  }

  lemma TrimOfDotted(e: string)
    requires IsCleanExtension(e)
    ensures Trim(" ." + e + " ") == "." + e
  {
    var s := " ." + e + " ";
    assert s[1] == '.' && s[|s| - 2] == e[|e| - 1];
    assert LeadingBlanks(s[1..]) == 0;
    assert LeadingBlanks(s) == 1;
    assert TrailingBlanks(s[..|s| - 1]) == 0;
    assert TrailingBlanks(s) == 1;
    assert s[1..|s| - 1] == "." + e;
  }

  lemma SanitizeClean(x: string, e: string)
    requires IsCleanExtension(e) && ExtensionCandidate(x) == e
    ensures SanitizeExtension(x) == Some(e)
  {
    assert forall k | 0 <= k < |e| :: IsAsciiAlnum(e[k]);
  }

  /** `extension_from_url`, with URL parsing left out: `pathExtension` is the extension of the
      parsed URL path, absent when the URL does not parse or its path has none. */
  function ExtensionFromUrl(pathExtension: Option<string>): (r: Option<string>)
    ensures r.Some? ==> IsCleanExtension(r.value)
  {
    match pathExtension
    case None => None
    case Some(e) => SanitizeExtension(e)
  }

  // ---------------------------------------------------------------------------
  // extension_from_content_type
  // ---------------------------------------------------------------------------

  /** The content-type prefixes `extension_from_content_type` tests, in the order it tests them. */
  const ContentTypeTable: seq<(string, string)> := [
    ("image/png", "png"),
    ("image/jpeg", "jpg"),
    ("image/jpg", "jpg"),
    ("image/webp", "webp"),
    ("image/gif", "gif"),
    ("image/svg+xml", "svg"),
    ("image/avif", "avif"),
    ("image/heic", "heic"),
    ("image/heif", "heif"),
    ("video/mp4", "mp4"),
    ("video/webm", "webm"),
    ("video/quicktime", "mov"),
    ("audio/mpeg", "mp3"),
    ("audio/mp4", "m4a"),
    ("audio/m4a", "m4a"),
    ("audio/wav", "wav")
  ]

  /** The index of the first entry whose prefix starts `ct`, if any. */
  function FirstPrefixMatch(ct: string, table: seq<(string, string)>): (r: Option<nat>)
    ensures r.Some? ==> r.value < |table| && table[r.value].0 <= ct
    ensures r.Some? ==> forall j | 0 <= j < r.value :: !(table[j].0 <= ct)
    ensures r.None? ==> forall j | 0 <= j < |table| :: !(table[j].0 <= ct)
  {
    if table == [] then None
    else if table[0].0 <= ct then Some(0)
    else match FirstPrefixMatch(ct, table[1..])
      case None => None
      case Some(i) => Some(i + 1)
  }

  /** `extension_from_content_type`: the extension of the first table prefix the lower-cased
      content type starts with. */
  function ExtensionFromContentType(contentType: Option<string>): (r: Option<string>)
    ensures contentType.None? ==> r.None?
    ensures r.Some? ==> IsCleanExtension(r.value)
    ensures contentType.Some? ==>
              match FirstPrefixMatch(AsciiLower(contentType.value), ContentTypeTable)
              case None => r.None?
              case Some(i) => r == Some(ContentTypeTable[i].1)
  {
    match contentType
    case None => None
    case Some(ct) =>
      match FirstPrefixMatch(AsciiLower(ct), ContentTypeTable)
      case None => None
      case Some(i) => TableIsClean(i); Some(ContentTypeTable[i].1)
  }

  lemma TableIsClean(i: nat)
    requires i < |ContentTypeTable|
    ensures IsCleanExtension(ContentTypeTable[i].1)
  {
  }

  /** The content-type match does not depend on letter case. */
  lemma ContentTypeCaseInsensitive(ct: string)
    ensures ExtensionFromContentType(Some(AsciiLower(ct))) == ExtensionFromContentType(Some(ct))
  {
    AsciiLowerIdempotent(ct);
  }

  /** Parameters after the media type do not matter: "image/jpeg; charset=binary" is a JPEG.
      A listed type followed by anything resolves to that type's own extension, because no
      entry of the table shadows a later one. */
  lemma ContentTypeIgnoresParameters(i: nat, rest: string)
    requires i < |ContentTypeTable|
    ensures ExtensionFromContentType(Some(ContentTypeTable[i].0 + rest)) == Some(ContentTypeTable[i].1)
  {
    var t := ContentTypeTable[i].0;
    var ct := AsciiLower(t + rest);
    TableTypeIsLower(i);
    LowerOfLowerPrefix(t, rest);
    forall j | 0 <= j < i
      ensures !(ContentTypeTable[j].0 <= ct)
    {
      NoShadow(j, i, AsciiLower(rest));
    }
    FirstPrefixMatchIs(ct, ContentTypeTable, i);
  }

  lemma TableTypeIsLower(i: nat)
    requires i < |ContentTypeTable|
    ensures forall k | 0 <= k < |ContentTypeTable[i].0| :: !('A' <= ContentTypeTable[i].0[k] <= 'Z')
  {
  }

  /** No table type is a prefix of a later one, nor is it extended by one. */
  lemma NoShadow(j: nat, i: nat, rest: string)
    requires j < i < |ContentTypeTable|
    ensures !(ContentTypeTable[j].0 <= ContentTypeTable[i].0 + rest)
  {
    var a, b := ContentTypeTable[j].0, ContentTypeTable[i].0;
    DifferAt(a, b, rest, Divergence(a, b));
  }

  /** Lower-casing leaves text without upper-case letters alone and works piece by piece. */
  lemma {:induction false} LowerOfLowerPrefix(t: string, rest: string)
    requires forall k | 0 <= k < |t| :: !('A' <= t[k] <= 'Z')
    ensures AsciiLower(t + rest) == t + AsciiLower(rest)
  {
    if t == [] {
      assert t + rest == rest;
    } else {
      assert (t + rest)[0] == t[0] && (t + rest)[1..] == t[1..] + rest;
      LowerOfLowerPrefix(t[1..], rest);
      assert t == [t[0]] + t[1..];
    }
  }

  /** Where two table types first differ: at the family ("image", "video", "audio"), just
      after the slash, or at one of the next three characters. */
  function Divergence(a: string, b: string): nat
    requires |a| >= 9 && |b| >= 9
  {
    if a[0] != b[0] then 0
    else if a[6] != b[6] then 6
    else if a[7] != b[7] then 7
    else if a[8] != b[8] then 8
    else 9
  }

  /** Strings that differ at a position neither ends before are not prefix-related. */
  lemma DifferAt(a: string, b: string, rest: string, k: nat)
    requires k < |a| && k < |b| && a[k] != b[k]
    ensures !(a <= b + rest)
  {
    assert (b + rest)[k] == b[k];
  }

  /** The first match is `i` when entry `i` matches and no earlier one does. */
  lemma {:induction false} FirstPrefixMatchIs(ct: string, table: seq<(string, string)>, i: nat)
    requires i < |table| && table[i].0 <= ct
    requires forall j | 0 <= j < i :: !(table[j].0 <= ct)
    ensures FirstPrefixMatch(ct, table) == Some(i)
  {
    if i > 0 {
      assert forall j | 0 <= j < i - 1 :: table[1..][j] == table[j + 1];
      FirstPrefixMatchIs(ct, table[1..], i - 1);
    }
  }

  // ---------------------------------------------------------------------------
  // The extension fallback and the file name
  // ---------------------------------------------------------------------------

  /** The extension fallback: the URL's extension, else the content type's, else the default
      of the kind. The result is always a clean extension. */
  function ChooseExtension(kind: Kind, pathExtension: Option<string>, contentType: Option<string>): (r: string)
    ensures IsCleanExtension(r)
    ensures ExtensionFromUrl(pathExtension).Some? ==> r == ExtensionFromUrl(pathExtension).value
    ensures ExtensionFromUrl(pathExtension).None? && ExtensionFromContentType(contentType).Some? ==>
              r == ExtensionFromContentType(contentType).value
    ensures ExtensionFromUrl(pathExtension).None? && ExtensionFromContentType(contentType).None? ==>
              r == DefaultExtension(kind)
  {
    match ExtensionFromUrl(pathExtension)
    case Some(e) => e
    case None =>
      match ExtensionFromContentType(contentType)
      case Some(e) => e
      case None => DefaultExtension(kind)
  }

  /** The input SHA-256 is computed over: the URL followed by the token, when there is one. */
  function HashInput(url: string, authToken: Option<string>): string {
    match authToken
    case None => url
    case Some(t) => url + t
  }

  /** `{kind}-{digest}.{ext}`. */
  function CacheFileName(kind: Kind, digest: string, ext: string): (name: string)
    ensures |name| == 7 + |digest| + |ext|
  {
    KindName(kind) + "-" + digest + "." + ext
  }

  /** A lower-case hex SHA-256 digest. */
  predicate IsHexDigest(d: string) {
    |d| == 64 && forall k | 0 <= k < 64 :: ('0' <= d[k] <= '9') || ('a' <= d[k] <= 'f')
  }

  /** File names are content addresses: a name determines the kind, the digest and the
      extension it was built from. */
  lemma CacheFileNameInjective(k1: Kind, d1: string, e1: string, k2: Kind, d2: string, e2: string)
    requires IsHexDigest(d1) && IsHexDigest(d2)
    requires CacheFileName(k1, d1, e1) == CacheFileName(k2, d2, e2)
    ensures k1 == k2 && d1 == d2 && e1 == e2
  {
    var n1, n2 := CacheFileName(k1, d1, e1), CacheFileName(k2, d2, e2);
    assert n1[..5] == KindName(k1) && n2[..5] == KindName(k2);
    assert n1[6..70] == d1 && n2[6..70] == d2;
    assert n1[71..] == e1 && n2[71..] == e2;
    assert KindName(k1) == KindName(k2);
  }

  /** Inline URLs are returned as they are and never cached. */
  predicate IsInlineUrl(url: string) {
    "data:" <= url || "blob:" <= url
  }

  // ---------------------------------------------------------------------------
  // The cache operations
  // ---------------------------------------------------------------------------

  /** A piece of a response body as the stream delivers it. */
  datatype Chunk = Bytes(size: nat) | ChunkError

  /** What sending the request produced. */
  datatype Response =
    | SendFailed
    | Received(status: int, contentType: Option<string>, body: seq<Chunk>)

  datatype CacheError = Transport | HttpStatus(status: int) | TooLarge

  /** The answer of one cache call, whether it sent a request, and the cache directory after it. */
  datatype Outcome = Outcome(result: Result<string, CacheError>, fetched: bool, files: set<string>)

  /** The fast path: the file named after the URL's own extension, when it already exists. */
  function CachedPath(kind: Kind, digest: string, pathExtension: Option<string>, files: set<string>): (r: Option<string>)
    ensures r.Some? ==> r.value in files && ExtensionFromUrl(pathExtension).Some?
    ensures r.Some? ==> r.value == CacheFileName(kind, digest, ExtensionFromUrl(pathExtension).value)
  {
    match ExtensionFromUrl(pathExtension)
    case None => None
    case Some(ext) =>
      var name := CacheFileName(kind, digest, ext);
      if name in files then Some(name) else None
  }

  function IsSuccess(status: int): bool { 200 <= status <= 299 }

  function BodySize(body: seq<Chunk>): nat {
    if body == [] then 0 else (if body[0].Bytes? then body[0].size else 0) + BodySize(body[1..])
  }

  predicate BodyIntact(body: seq<Chunk>) {
    forall k | 0 <= k < |body| :: body[k].Bytes?
  }

  /** The digest an asset is cached under: SHA-256 of the URL and the token, in hex. */
  function Digest(sha256Hex: string -> string, url: string, authToken: Option<string>): string {
    sha256Hex(HashInput(url, authToken))
  }

  /** The name a fetched asset is stored under: its digest and the fallback extension. */
  function StoredName(kind: Kind, sha256Hex: string -> string, url: string, authToken: Option<string>,
                      pathExtension: Option<string>, contentType: Option<string>): string {
    CacheFileName(kind, Digest(sha256Hex, url, authToken), ChooseExtension(kind, pathExtension, contentType))
  }

  /** `cache_remote_image`: inline URLs pass through; a file already named after the URL's
      extension is a hit; otherwise the body is fetched whole, refused above 50 MiB, and
      written under the fallback extension unless that file exists already. */
  function CacheRemoteImage(url: string, authToken: Option<string>, pathExtension: Option<string>,
                            sha256Hex: string -> string, files: set<string>, response: Response): (o: Outcome)
    // Inline URLs and cache hits send nothing and change nothing.
    ensures IsInlineUrl(url) ==> o == Outcome(Ok(url), false, files)
    ensures !IsInlineUrl(url) ==>
              match CachedPath(Image, Digest(sha256Hex, url, authToken), pathExtension, files)
              case Some(path) => o == Outcome(Ok(path), false, files)
              case None => o.fetched
    ensures !o.fetched ==> o.files == files
    // The failures of the request, each leaving the directory as it was.
    ensures o.fetched && response.SendFailed? ==> o == Outcome(Err(Transport), true, files)
    ensures o.fetched && response.Received? && !IsSuccess(response.status) ==>
              o == Outcome(Err(HttpStatus(response.status)), true, files)
    ensures o.fetched && response.Received? && IsSuccess(response.status) && !BodyIntact(response.body) ==>
              o == Outcome(Err(Transport), true, files)
    ensures (o.fetched && response.Received? && IsSuccess(response.status) && BodyIntact(response.body)
             && BodySize(response.body) > MaxImageBytes) ==> o == Outcome(Err(TooLarge), true, files)
    ensures o.result.Err? ==> o.files == files
    // A success after a request: an intact body of at most 50 MiB, stored under its name.
    ensures o.fetched && o.result.Ok? ==>
              && response.Received? && IsSuccess(response.status)
              && BodyIntact(response.body) && BodySize(response.body) <= MaxImageBytes
              && o.result.value == StoredName(Image, sha256Hex, url, authToken, pathExtension, response.contentType)
              && o.files == files + {o.result.value}
    // A miss with an intact 2xx body of at most 50 MiB succeeds and stores the body.
    ensures (!IsInlineUrl(url) && CachedPath(Image, Digest(sha256Hex, url, authToken), pathExtension, files).None?
             && response.Received? && IsSuccess(response.status) && BodyIntact(response.body)
             && BodySize(response.body) <= MaxImageBytes) ==>
              var target := StoredName(Image, sha256Hex, url, authToken, pathExtension, response.contentType);
              o == Outcome(Ok(target), true, files + {target})
    ensures o.files == files || (o.result.Ok? && o.files == files + {o.result.value})
  {
    if IsInlineUrl(url) then
      Outcome(Ok(url), false, files)
    else
      var digest := sha256Hex(HashInput(url, authToken));
      match CachedPath(Image, digest, pathExtension, files)
      case Some(path) => Outcome(Ok(path), false, files)
      case None =>
        match response
        case SendFailed => Outcome(Err(Transport), true, files)
        case Received(status, contentType, body) =>
          if !IsSuccess(status) then Outcome(Err(HttpStatus(status)), true, files)
          else if !BodyIntact(body) then Outcome(Err(Transport), true, files)
          else if BodySize(body) > MaxImageBytes then Outcome(Err(TooLarge), true, files)
          else
            var target := CacheFileName(Image, digest, ChooseExtension(Image, pathExtension, contentType));
            Outcome(Ok(target), true, files + {target})
  }

  /** Once an image whose URL names its extension has been cached, asking again is a hit:
      same path, no request. */
  lemma ImageSecondCallHits(url: string, authToken: Option<string>, pathExtension: Option<string>,
                            sha256Hex: string -> string, files: set<string>, r1: Response, r2: Response)
    requires ExtensionFromUrl(pathExtension).Some?
    requires CacheRemoteImage(url, authToken, pathExtension, sha256Hex, files, r1).result.Ok?
    ensures var o1 := CacheRemoteImage(url, authToken, pathExtension, sha256Hex, files, r1);
      var o2 := CacheRemoteImage(url, authToken, pathExtension, sha256Hex, o1.files, r2);
      !o2.fetched && o2.result == o1.result && o2.files == o1.files
  {
  }

  /** Without a URL extension there is no fast path: every call sends the request, however
      often the same asset has been cached. */
  lemma ExtensionlessUrlAlwaysFetches(url: string, authToken: Option<string>, pathExtension: Option<string>,
                                      sha256Hex: string -> string, files: set<string>, response: Response)
    requires !IsInlineUrl(url) && ExtensionFromUrl(pathExtension).None?
    ensures CacheRemoteImage(url, authToken, pathExtension, sha256Hex, files, response).fetched
  {
  }

  /** A file name the fallback chain produced under a URL extension is what the fast path
      looks up. */
  lemma StoredNameIsHit(kind: Kind, digest: string, pathExtension: Option<string>,
                        contentType: Option<string>, files: set<string>)
    requires ExtensionFromUrl(pathExtension).Some?
    requires CacheFileName(kind, digest, ChooseExtension(kind, pathExtension, contentType)) in files
    ensures CachedPath(kind, digest, pathExtension, files)
            == Some(CacheFileName(kind, digest, ChooseExtension(kind, pathExtension, contentType)))
  {
  }

  /** How streaming `body` ends after `size` bytes have been written: `None` when every chunk
      arrives and the running total never passes 300 MiB, otherwise the error met first. */
  function StreamEnd(body: seq<Chunk>, size: nat): Option<CacheError> {
    if body == [] then None
    else match body[0]
      case ChunkError => Some(Transport)
      case Bytes(n) => if size + n > MaxMediaBytes then Some(TooLarge) else StreamEnd(body[1..], size + n)
  }

  /** Streaming ends in one of three ways. An intact body fails only by passing the limit,
      which happens exactly when its size does; a body that streams to the end is intact. */
  lemma {:induction false} StreamEndCases(body: seq<Chunk>, size: nat)
    requires size <= MaxMediaBytes
    ensures StreamEnd(body, size) in {None, Some(TooLarge), Some(Transport)}
    ensures StreamEnd(body, size).None? ==> BodyIntact(body) && size + BodySize(body) <= MaxMediaBytes
    ensures BodyIntact(body) ==>
              StreamEnd(body, size) == (if size + BodySize(body) <= MaxMediaBytes then None else Some(TooLarge))
  {
    if body != [] && body[0].Bytes? && size + body[0].size <= MaxMediaBytes {
      StreamEndCases(body[1..], size + body[0].size);
      if StreamEnd(body, size).None? {
        assert forall k | 1 <= k < |body| :: body[k] == body[1..][k - 1];
      }
    }
  }

  /** The loop that streams a media body into the file created for it: the running size is
      checked after every chunk, and the partial file is removed once it passes 300 MiB. A
      broken chunk stops the copy and leaves the partial file behind. */
  method StreamMedia(target: string, files: set<string>, body: seq<Chunk>)
    returns (result: Result<string, CacheError>, after: set<string>)
    ensures StreamEnd(body, 0).None? ==> result == Ok(target) && after == files + {target}
    ensures StreamEnd(body, 0) == Some(TooLarge) ==> result == Err(TooLarge) && after == files - {target}
    ensures StreamEnd(body, 0) == Some(Transport) ==> result == Err(Transport) && after == files + {target}
  {
    after := files + {target};
    var size: nat := 0;
    var i := 0;
    while i < |body|
      invariant 0 <= i <= |body|
      invariant after == files + {target}
      invariant size <= MaxMediaBytes
      invariant StreamEnd(body[i..], size) == StreamEnd(body, 0)
    {
      assert body[i..][0] == body[i] && body[i..][1..] == body[i + 1..];
      match body[i]
      case ChunkError =>
        return Err(Transport), after;
      case Bytes(n) =>
        size := size + n;
        if size > MaxMediaBytes {
          after := after - {target};
          return Err(TooLarge), after;
        }
      i := i + 1;
    }
    assert body[i..] == [];
    result := Ok(target);
  }

  /** `cache_remote_media`: like the image cache up to the request, but an existing target is
      returned after the request without reading the body, and the body is streamed. */
  method CacheRemoteMedia(url: string, authToken: Option<string>, pathExtension: Option<string>,
                          sha256Hex: string -> string, files: set<string>, response: Response)
    returns (o: Outcome)
    // Inline URLs and cache hits send nothing and change nothing.
    ensures IsInlineUrl(url) ==> o == Outcome(Ok(url), false, files)
    ensures !IsInlineUrl(url) ==>
              match CachedPath(Media, Digest(sha256Hex, url, authToken), pathExtension, files)
              case Some(path) => o == Outcome(Ok(path), false, files)
              case None => o.fetched
    ensures !o.fetched ==> o.files == files
    // The failures of the request, each leaving the directory as it was.
    ensures o.fetched && response.SendFailed? ==> o == Outcome(Err(Transport), true, files)
    ensures o.fetched && response.Received? && !IsSuccess(response.status) ==>
              o == Outcome(Err(HttpStatus(response.status)), true, files)
    // After a successful status, the stored name decides: an existing file is the answer,
    // otherwise the stream decides, and only the stored name can be added.
    ensures o.fetched && response.Received? && IsSuccess(response.status) ==>
              var target := StoredName(Media, sha256Hex, url, authToken, pathExtension, response.contentType);
              if target in files then o == Outcome(Ok(target), true, files)
              else match StreamEnd(response.body, 0)
                case None => o == Outcome(Ok(target), true, files + {target})
                case Some(e) => o.result == Err(e) && o.files == (if e == TooLarge then files else files + {target})
    // An intact body over 300 MiB is refused and leaves no file behind.
    ensures (o.fetched && response.Received? && IsSuccess(response.status) && BodyIntact(response.body)
             && BodySize(response.body) > MaxMediaBytes
             && StoredName(Media, sha256Hex, url, authToken, pathExtension, response.contentType) !in files)
            ==> o == Outcome(Err(TooLarge), true, files)
    ensures o.result.Ok? && o.fetched ==>
              o.result.value == StoredName(Media, sha256Hex, url, authToken, pathExtension, response.contentType)
    ensures o.files == files || (o.fetched && response.Received? &&
              o.files == files + {StoredName(Media, sha256Hex, url, authToken, pathExtension, response.contentType)})
  {
    if IsInlineUrl(url) {
      return Outcome(Ok(url), false, files);
    }
    var digest := sha256Hex(HashInput(url, authToken));
    var cached := CachedPath(Media, digest, pathExtension, files);
    if cached.Some? {
      return Outcome(Ok(cached.value), false, files);
    }
    if response.SendFailed? {
      return Outcome(Err(Transport), true, files);
    }
    if !IsSuccess(response.status) {
      return Outcome(Err(HttpStatus(response.status)), true, files);
    }
    var target := CacheFileName(Media, digest, ChooseExtension(Media, pathExtension, response.contentType));
    if target in files {
      return Outcome(Ok(target), true, files);
    }
    StreamEndCases(response.body, 0);
    var result, after := StreamMedia(target, files, response.body);
    o := Outcome(result, true, after);
  }
}
