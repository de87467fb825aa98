/** How src/app/actions.ts shapes one request to the Labelary renderer: the
    density segment, the path, the pool of base URLs, the User-Agent rotation
    and the retry backoff. */
module Request {
  import opened Text
  import opened Wrappers

  /** dpiToDpmm: dots per millimetre for the three printer densities the
      renderer knows, 8 for anything else. */
  function DpiToDpmm(dpi: int): nat {
    if dpi == 300 then 12
    else if dpi == 600 then 24
    else 8
  }

  /** The density takes one of three values; 12 and 24 only for their own dpi. */
  lemma DpiToDpmmValues(dpi: int)
    ensures DpiToDpmm(dpi) in {8, 12, 24}
    ensures DpiToDpmm(dpi) == 12 <==> dpi == 300
    ensures DpiToDpmm(dpi) == 24 <==> dpi == 600
    ensures DpiToDpmm(dpi) == 8 <==> dpi != 300 && dpi != 600
  {
  }

  /** For each known density the result is dpi / 25.4 rounded to the nearest
      integer: |dpmm * 25.4 - dpi| <= 12.7, written in tenths. */
  lemma DpiToDpmmRounds(dpi: int)
    requires dpi in {203, 300, 600}
    ensures -127 <= DpiToDpmm(dpi) * 254 - dpi * 10 <= 127
  {
  }

  /** `dpi || 203` at the call site: an unset (zero) density is 203 dpi. */
  function EffectiveDpi(dpi: int): int {
    if dpi == 0 then 203 else dpi
  }

  /** `orientation === '90' ? 1 : 0` after defaulting an empty orientation to "0". */
  function OrientationValue(orientation: string): nat {
    if orientation == "90" then 1 else 0
  }

  datatype Format = Png | Pdf

  /** The segments of the request path
      `/v1/printers/{dpmm}dpmm/labels/{width}x{height}/{orientation}`, with the
      label index as one more segment for a png request that has one. Width and
      height are the decimal renderings of the size in inches. */
  function PathSegments(dpi: int, widthText: string, heightText: string, orientation: string,
                        format: Format, labelIndex: Option<int>): seq<string>
  {
    ["", "v1", "printers", NatToString(DpiToDpmm(EffectiveDpi(dpi))) + "dpmm", "labels",
     widthText + "x" + heightText, NatToString(OrientationValue(orientation))]
      + (if format == Png && labelIndex.Some? then [IntToString(labelIndex.value)] else [])
  }

  /** The URL path of a request: its segments separated by '/'. */
  function LabelaryPath(dpi: int, widthText: string, heightText: string, orientation: string,
                        format: Format, labelIndex: Option<int>): string
  {
    JoinWith(PathSegments(dpi, widthText, heightText, orientation, format, labelIndex), "/")
  }

  lemma NatStringHasNoSlash(n: nat)
    ensures '/' !in NatToString(n)
  {
    var s := NatToString(n);
    assert forall k :: 0 <= k < |s| ==> IsDigit(s[k]);
  }

  lemma JoinSnoc(parts: seq<string>, x: string, sep: string)
    requires parts != []
    ensures JoinWith(parts + [x], sep) == JoinWith(parts, sep) + sep + x
    decreases |parts|
  {
    if |parts| > 1 {
      assert (parts + [x])[1..] == parts[1..] + [x];
      JoinSnoc(parts[1..], x, sep);
    } else {
      assert (parts + [x])[1..] == [x];
    }
  }

  /** The index suffix: a png request with a label index has the path of the
      same request without one, then '/' and the index; any other request has
      exactly seven segments. */
  lemma PathIndexSuffix(dpi: int, widthText: string, heightText: string, orientation: string,
                        format: Format, labelIndex: Option<int>)
    ensures format == Png && labelIndex.Some? ==>
      LabelaryPath(dpi, widthText, heightText, orientation, format, labelIndex)
        == LabelaryPath(dpi, widthText, heightText, orientation, format, None) + "/"
           + IntToString(labelIndex.value)
    ensures |PathSegments(dpi, widthText, heightText, orientation, format, labelIndex)| == 8
      <==> format == Png && labelIndex.Some?
    ensures !(format == Png && labelIndex.Some?) ==>
      LabelaryPath(dpi, widthText, heightText, orientation, format, labelIndex)
        == LabelaryPath(dpi, widthText, heightText, orientation, Pdf, None)
  {
    var head := PathSegments(dpi, widthText, heightText, orientation, format, None);
    assert head == PathSegments(dpi, widthText, heightText, orientation, Pdf, None);
    if format == Png && labelIndex.Some? {
      JoinSnoc(head, IntToString(labelIndex.value), "/");
      assert PathSegments(dpi, widthText, heightText, orientation, format, labelIndex)
        == head + [IntToString(labelIndex.value)];
    }
  }

  /** No segment of the path holds a '/'. */
  lemma SegmentsHaveNoSlash(dpi: int, widthText: string, heightText: string, orientation: string,
                            format: Format, labelIndex: Option<int>)
    requires '/' !in widthText && '/' !in heightText
    ensures forall k :: 0 <= k < |PathSegments(dpi, widthText, heightText, orientation, format, labelIndex)| ==>
      '/' !in PathSegments(dpi, widthText, heightText, orientation, format, labelIndex)[k]
  {
    var dpmm := NatToString(DpiToDpmm(EffectiveDpi(dpi)));
    NatStringHasNoSlash(DpiToDpmm(EffectiveDpi(dpi)));
    NatStringHasNoSlash(OrientationValue(orientation));
    var segs := PathSegments(dpi, widthText, heightText, orientation, format, labelIndex);
    forall k | 0 <= k < |segs|
      ensures '/' !in segs[k]
    {
      if k == 3 {
        assert segs[k] == dpmm + "dpmm";
      } else if k == 5 {
        assert segs[k] == widthText + "x" + heightText;
      }
    }
  }

  /** Parsing the path back: with width and height free of '/', splitting the
      path at '/' yields exactly its segments. */
  lemma PathRoundTrip(dpi: int, widthText: string, heightText: string, orientation: string,
                      format: Format, labelIndex: Option<int>)
    requires '/' !in widthText && '/' !in heightText
    ensures SplitOn(LabelaryPath(dpi, widthText, heightText, orientation, format, labelIndex), '/')
      == PathSegments(dpi, widthText, heightText, orientation, format, labelIndex)
  {
    SegmentsHaveNoSlash(dpi, widthText, heightText, orientation, format, labelIndex);
    SplitJoin(PathSegments(dpi, widthText, heightText, orientation, format, labelIndex), '/');
  }

  /** The local forwarding proxy development prefers. */
  const LocalProxy := "http://127.0.0.1:9002"

  /** The public Labelary API. */
  const PublicApi := "https://api.labelary.com"

  /** The base URLs used when LABELARY_BASE_URLS is unset or empty. */
  function DefaultBaseUrls(production: bool): string {
    if production then PublicApi else LocalProxy + "," + PublicApi
  }

  /** `process.env.LABELARY_BASE_URLS || inferredDefaultBase`. */
  function BaseUrlSetting(configured: Option<string>, production: bool): string {
    if configured.Some? && configured.value != [] then configured.value
    else DefaultBaseUrls(production)
  }

  /** A configured, non-empty setting replaces the default pool outright:
      the pool is what that setting parses to (and, by `ParseJoin`, a list of
      clean URLs written with commas is read back as given). */
  lemma ConfiguredPool(configured: string, production: bool)
    requires configured != []
    ensures BaseUrlSetting(Some(configured), production) == configured
    ensures ParseBaseUrls(BaseUrlSetting(Some(configured), production)) == ParseBaseUrls(configured)
  {
  }

  /** An unset or empty setting falls back to the default pool: the public API,
      preceded by the local proxy outside production. */
  lemma FallbackPool(production: bool)
    ensures BaseUrlSetting(None, production) == DefaultBaseUrls(production)
    ensures BaseUrlSetting(Some([]), production) == DefaultBaseUrls(production)
    ensures ParseBaseUrls(BaseUrlSetting(None, production))
      == if production then [PublicApi] else [LocalProxy, PublicApi]
  {
    var setting := BaseUrlSetting(None, production);
    assert setting == DefaultBaseUrls(production);
    DefaultPools();
    if production {
      assert ParseBaseUrls(setting) == [PublicApi];
    } else {
      assert ParseBaseUrls(setting) == [LocalProxy, PublicApi];
    }
  }

  /** `.filter(Boolean)` on strings: the entries that are not empty, in order.
      An entry is kept exactly when it is non-empty, and nothing is added. */
  function NonEmpty(entries: seq<string>): (kept: seq<string>)
    ensures forall k :: 0 <= k < |kept| ==> kept[k] != [] && kept[k] in entries
    ensures forall e :: e in entries && e != [] ==> e in kept
    ensures |kept| <= |entries|
  {
    if entries == [] then []
    else if entries[0] == [] then NonEmpty(entries[1..])
    else [entries[0]] + NonEmpty(entries[1..])
  }

  /** The filter works entry by entry and keeps the order: filtering a
      concatenation concatenates the filtered parts, and one entry is kept
      alone exactly when it is non-empty. */
  lemma {:induction false} NonEmptyConcat(a: seq<string>, b: seq<string>)
    ensures NonEmpty(a + b) == NonEmpty(a) + NonEmpty(b)
    ensures forall e :: NonEmpty([e]) == if e == [] then [] else [e]
    decreases |a|
  {
    forall e
      ensures NonEmpty([e]) == if e == [] then [] else [e]
    {
      assert [e][1..] == [];
    }
    if a != [] {
      assert (a + b)[1..] == a[1..] + b;
      NonEmptyConcat(a[1..], b);
    } else {
      assert a + b == b;
    }
  }

  /** Every entry trimmed, in order. */
  function TrimEach(entries: seq<string>): (trimmed: seq<string>)
    ensures |trimmed| == |entries|
    ensures forall k :: 0 <= k < |entries| ==> trimmed[k] == Trim(entries[k])
  {
    if entries == [] then [] else [Trim(entries[0])] + TrimEach(entries[1..])
  }

  /** `.split(',').map(u => u.trim()).filter(Boolean)`. */
  function ParseBaseUrls(setting: string): seq<string> {
    NonEmpty(TrimEach(SplitOn(setting, ',')))
  }

  /** A usable base URL: not empty, no comma, no surrounding whitespace. */
  predicate CleanUrl(u: string) {
    u != [] && ',' !in u && Trim(u) == u
  }

  lemma TrimmedHasNoComma(s: string)
    requires ',' !in s
    ensures ',' !in Trim(s)
  {
    TrimShape(s);
    var a: nat, b: nat :| a <= b <= |s| && Trim(s) == s[a..b];
    forall k | 0 <= k < |Trim(s)|
      ensures Trim(s)[k] != ','
    {
      assert Trim(s)[k] == s[a + k];
    }
  }

  /** Every parsed entry is a clean URL. */
  lemma ParsedUrlsAreClean(setting: string)
    ensures forall k :: 0 <= k < |ParseBaseUrls(setting)| ==> CleanUrl(ParseBaseUrls(setting)[k])
  {
    var parts := SplitOn(setting, ',');
    var trimmed := TrimEach(parts);
    forall k | 0 <= k < |trimmed|
      ensures ',' !in trimmed[k] && Trim(trimmed[k]) == trimmed[k]
    {
      TrimmedHasNoComma(parts[k]);
      TrimIdempotent(parts[k]);
    }
  }

  lemma NonEmptyKeepsAll(entries: seq<string>)
    requires forall k :: 0 <= k < |entries| ==> entries[k] != []
    ensures NonEmpty(entries) == entries
  {
  }

  lemma TrimEachKeepsClean(urls: seq<string>)
    requires forall k :: 0 <= k < |urls| ==> CleanUrl(urls[k])
    ensures TrimEach(urls) == urls
  {
  }

  /** Parsing undoes joining with commas: a list of clean URLs written as one
      comma-separated setting is read back exactly. */
  lemma ParseJoin(urls: seq<string>)
    requires urls != []
    requires forall k :: 0 <= k < |urls| ==> CleanUrl(urls[k])
    ensures ParseBaseUrls(JoinWith(urls, ",")) == urls
  {
    SplitJoin(urls, ',');
    TrimEachKeepsClean(urls);
    NonEmptyKeepsAll(urls);
  }

  lemma LocalProxyIsClean()
    ensures CleanUrl(LocalProxy)
  {
    TrimKeepsTrimmed(LocalProxy);
  }

  lemma PublicApiIsClean()
    ensures CleanUrl(PublicApi)
  {
    TrimKeepsTrimmed(PublicApi);
  }

  /** The development default puts the local proxy first and the public API
      second; production uses only the public API. */
  lemma DefaultPools()
    ensures ParseBaseUrls(DefaultBaseUrls(false)) == [LocalProxy, PublicApi]
    ensures ParseBaseUrls(DefaultBaseUrls(true)) == [PublicApi]
  {
    var urls := [LocalProxy, PublicApi];
    assert urls[1..] == [PublicApi];
    assert JoinWith(urls, ",") == DefaultBaseUrls(false);
    LocalProxyIsClean();
    PublicApiIsClean();
    ParseJoin(urls);
    ParseJoin([PublicApi]);
  }

  /** `.replace(/\/$/, '')`: one trailing slash removed. */
  function StripTrailingSlash(u: string): (r: string)
    ensures EndsWith(u, "/") ==> r + "/" == u
    ensures !EndsWith(u, "/") ==> r == u
  {
    if u != [] && u[|u| - 1] == '/' then u[..|u| - 1] else u
  }

  /** The User-Agent pool requests rotate through. */
  const UserAgents: seq<string> := [
    "Mozilla/5.0 (Windows NT 10.0; Win64; x64) AppleWebKit/537.36 Chrome/126 Safari/537.36",
    "Mozilla/5.0 (Macintosh; Intel Mac OS X 13_5) AppleWebKit/605.1.15 Version/16.5 Safari/605.1.15",
    "Mozilla/5.0 (X11; Linux x86_64) AppleWebKit/537.36 Chrome/125 Safari/537.36",
    "Mozilla/5.0 (iPad; CPU OS 16_4 like Mac OS X) AppleWebKit/605.1.15 Version/16.4 Mobile/15E148 Safari/604.1",
    "Mozilla/5.0 (Windows NT 10.0; Win64; x64; rv:122.0) Gecko/20100101 Firefox/122.0"
  ]

  /** pickUserAgent: the pool entry at seed mod 5. */
  function PickUserAgent(seed: nat): (ua: string)
  {
    UserAgents[seed % |UserAgents|]
  }

  /** Every pick is from the pool; the rotation repeats every five seeds, and
      consecutive seeds, such as the attempts of one request, never share an
      agent. */
  lemma UserAgentRotation(seed: nat)
    ensures PickUserAgent(seed) in UserAgents
    ensures PickUserAgent(seed + 5) == PickUserAgent(seed)
    ensures PickUserAgent(seed + 1) != PickUserAgent(seed)
  {
    assert |UserAgents[0]| == 85 && |UserAgents[1]| == 94 && |UserAgents[2]| == 75;
    assert |UserAgents[3]| == 106 && |UserAgents[4]| == 80;
  }

  function Pow2(n: nat): (p: nat)
    ensures p >= 1
  {
    if n == 0 then 1 else 2 * Pow2(n - 1)
  }

  lemma Pow2Mono(a: nat, b: nat)
    requires a <= b
    ensures Pow2(a) <= Pow2(b)
    decreases b
  {
    if a < b {
      Pow2Mono(a, b - 1);
    }
  }

  lemma MulMonoRight(x: nat, a: nat, b: nat)
    requires a <= b
    ensures x * a <= x * b
  {
  }

  /** The largest backoff, in milliseconds. */
  const MaxBackoffMs := 8000

  /** computeBackoff with its random jitter in [0, 250) passed in. */
  function ComputeBackoff(attempt: nat, baseMs: nat, jitter: nat): nat
    requires jitter < 250
  {
    var raw := baseMs * Pow2(attempt) + jitter;
    if raw <= MaxBackoffMs then raw else MaxBackoffMs
  }

  /** The backoff is the exponential delay plus the jitter, capped at 8000 ms. */
  lemma BackoffBounds(attempt: nat, baseMs: nat, jitter: nat)
    requires jitter < 250
    ensures ComputeBackoff(attempt, baseMs, jitter) <= MaxBackoffMs
    ensures ComputeBackoff(attempt, baseMs, jitter) == MaxBackoffMs
      || ComputeBackoff(attempt, baseMs, jitter) == baseMs * Pow2(attempt) + jitter
    ensures baseMs * Pow2(attempt) >= MaxBackoffMs ==> ComputeBackoff(attempt, baseMs, jitter) == MaxBackoffMs
  {
  }

  /** With base and jitter fixed, a later attempt never waits less. */
  lemma BackoffMonotone(a1: nat, a2: nat, baseMs: nat, jitter: nat)
    requires jitter < 250 && a1 <= a2
    ensures ComputeBackoff(a1, baseMs, jitter) <= ComputeBackoff(a2, baseMs, jitter)
  {
    Pow2Mono(a1, a2);
    MulMonoRight(baseMs, Pow2(a1), Pow2(a2));
  }

  /** `350 + apiInstanceId * 75`: later instances back off slightly longer. */
  function BaseDelay(instance: nat): nat {
    350 + instance * 75
  }

  /** The wait the server asks for: Retry-After seconds as milliseconds, 0 when
      the header is missing or not a number. */
  function RetryAfterMs(retryAfter: Option<int>): int {
    match retryAfter
    case Some(seconds) => seconds * 1000
    case None => 0
  }

  /** The delay before retrying a 429 or 5xx: the longer of the server's wait and
      the backoff. */
  function RetryDelay(retryAfter: Option<int>, attempt: nat, instance: nat, jitter: nat): (d: nat)
    requires jitter < 250
    ensures d >= ComputeBackoff(attempt, BaseDelay(instance), jitter)
    ensures d >= RetryAfterMs(retryAfter)
    ensures d == ComputeBackoff(attempt, BaseDelay(instance), jitter) || d == RetryAfterMs(retryAfter)
  {
    var backoff := ComputeBackoff(attempt, BaseDelay(instance), jitter);
    if RetryAfterMs(retryAfter) > backoff then RetryAfterMs(retryAfter) else backoff
  }
}
