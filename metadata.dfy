/** Link metadata (src/hooks/useLinkMetadata.ts): telling YouTube and Vimeo
    addresses apart with the two regular expressions of `parseVideoUrl`, and the
    metadata record `fetchMetadata` falls back to. */
module Metadata {
  import opened Common
  import Links

  // ---------------------------------------------------------------------------
  // Searching positions
  // ---------------------------------------------------------------------------

  /** The smallest position in `[lo, hi)` that passes `ok`. */
  function FirstWhere(lo: nat, hi: nat, ok: nat -> bool): (r: Option<nat>)
    ensures r.Some? ==> lo <= r.value < hi && ok(r.value) && forall m :: lo <= m < r.value ==> !ok(m)
    ensures r.None? ==> forall m :: lo <= m < hi ==> !ok(m)
    decreases hi - lo
  {
    if hi <= lo then None else if ok(lo) then Some(lo) else FirstWhere(lo + 1, hi, ok)
  }

  /** The largest position in `[lo, hi)` that passes `ok`: where a greedy `.*`
      that backtracks stops. */
  function LastWhere(lo: nat, hi: nat, ok: nat -> bool): (r: Option<nat>)
    ensures r.Some? ==> lo <= r.value < hi && ok(r.value) && forall m :: r.value < m < hi ==> !ok(m)
    ensures r.None? ==> forall m :: lo <= m < hi ==> !ok(m)
    decreases hi
  {
    if hi <= lo then None else if ok(hi - 1) then Some(hi - 1) else LastWhere(lo, hi - 1, ok)
  }

  /** `FirstWhere` finds the position that passes with none passing before it. */
  lemma {:induction false} FirstWhereIs(lo: nat, hi: nat, ok: nat -> bool, m: nat)
    requires lo <= m < hi && ok(m) && forall j :: lo <= j < m ==> !ok(j)
    ensures FirstWhere(lo, hi, ok) == Some(m)
    decreases m - lo
  {
    if lo < m {
      FirstWhereIs(lo + 1, hi, ok, m);
    }
  }

  /** ... and nothing when no position passes. */
  lemma {:induction false} FirstWhereNone(lo: nat, hi: nat, ok: nat -> bool)
    requires forall j :: lo <= j < hi ==> !ok(j)
    ensures FirstWhere(lo, hi, ok) == None
    decreases hi - lo
  {
    if lo < hi {
      FirstWhereNone(lo + 1, hi, ok);
    }
  }

  /** `LastWhere` finds the position that passes with none passing after it. */
  lemma {:induction false} LastWhereIs(lo: nat, hi: nat, ok: nat -> bool, m: nat)
    requires lo <= m < hi && ok(m) && forall j :: m < j < hi ==> !ok(j)
    ensures LastWhere(lo, hi, ok) == Some(m)
    decreases hi
  {
    if m < hi - 1 {
      LastWhereIs(lo, hi - 1, ok, m);
    }
  }

  // ---------------------------------------------------------------------------
  // The YouTube expression
  // ---------------------------------------------------------------------------

  /** The characters `.` does not match. */
  predicate IsLineTerminator(c: char) {
    c == '\n' || c == '\r' || c == '\U{2028}' || c == '\U{2029}'
  }

  /** `[^"&?/\s]`. */
  predicate IsIdChar(c: char) {
    c != '"' && c != '&' && c != '?' && c != '/' && !IsSpace(c)
  }

  predicate IsVideoId(id: string) {
    |id| == 11 && forall i :: 0 <= i < |id| ==> IsIdChar(id[i])
  }

  /** `([^"&?/\s]{11})` at position `k`. */
  predicate IdAt(s: string, k: nat) {
    k + 11 <= |s| && IsVideoId(s[k..k + 11])
  }

  function SlashAt(s: string): nat -> bool { (i: nat) => i < |s| && s[i] == '/' }

  /** Where a `.` run starting at `x` must stop: the next line terminator. */
  function LineEnd(s: string, x: nat): (e: nat)
    ensures x <= e && (x <= |s| ==> e <= |s|)
    ensures forall i :: x <= i < e && i < |s| ==> !IsLineTerminator(s[i])
    ensures e < |s| ==> IsLineTerminator(s[e])
    decreases |s| - x
  {
    if x >= |s| || IsLineTerminator(s[x]) then x else LineEnd(s, x + 1)
  }

  /** A "/" followed by an id. */
  function SlashThenId(s: string): nat -> bool { (m: nat) => m < |s| && s[m] == '/' && IdAt(s, m + 1) }

  /** A "?v=" or "&v=" followed by an id. */
  function ParamThenId(s: string): nat -> bool {
    (m: nat) => m + 3 <= |s| && (s[m] == '?' || s[m] == '&') && s[m + 1] == 'v' && s[m + 2] == '=' && IdAt(s, m + 3)
  }

  /** `[^/]+\/.+\/` then the id, after "youtube.com/" at `q`: a first path
      segment, then the last "/" on the line that an id follows. */
  function TwoSegments(s: string, q: nat): (k: Option<nat>)
    ensures k.Some? ==> q + 3 < k.value && IdAt(s, k.value) && s[k.value - 1] == '/'
  {
    match FirstWhere(q, |s|, SlashAt(s))
    case None => None
    case Some(r) =>
      if r == q then None
      else
        match LastWhere(r + 2, LineEnd(s, r + 1), SlashThenId(s))
        case None => None
        case Some(m) => Some(m + 1)
  }

  /** `(?:v|e(?:mbed)?)\/` then the id. */
  function ShortPath(s: string, q: nat): (k: Option<nat>)
    ensures k.Some? ==> IdAt(s, k.value)
    ensures k.Some? ==>
      (q <= |s| &&
       ((StartsWith(s[q..], "v/") && k.value == q + 2) || (StartsWith(s[q..], "embed/") && k.value == q + 6) ||
        (StartsWith(s[q..], "e/") && k.value == q + 2)))
  {
    if q > |s| then None
    else if StartsWith(s[q..], "v/") then (if IdAt(s, q + 2) then Some(q + 2) else None)
    else if StartsWith(s[q..], "embed/") then (if IdAt(s, q + 6) then Some(q + 6) else None)
    else if StartsWith(s[q..], "e/") then (if IdAt(s, q + 2) then Some(q + 2) else None)
    else None
  }

  /** `.*[?&]v=` then the id: the last such parameter on the line. */
  function VParam(s: string, q: nat): (k: Option<nat>)
    ensures k.Some? ==> q + 3 <= k.value && IdAt(s, k.value) && ParamThenId(s)(k.value - 3)
  {
    match LastWhere(q, LineEnd(s, q), ParamThenId(s))
    case None => None
    case Some(m) => Some(m + 3)
  }

  /** The position of the id when the YouTube expression matches at `p`: the
      alternatives in the order they are written. */
  function YouTubeAt(s: string, p: nat): (k: Option<nat>)
    ensures k.Some? ==> IdAt(s, k.value) && p <= |s|
    ensures k.Some? ==> StartsWith(s[p..], "youtube.com/") || (StartsWith(s[p..], "youtu.be/") && k.value == p + 9)
  {
    if p > |s| then None
    else if StartsWith(s[p..], "youtube.com/") then
      var q := p + 12;
      var a := TwoSegments(s, q);
      if a.Some? then a
      else
        var b := ShortPath(s, q);
        if b.Some? then b else VParam(s, q)
    else if StartsWith(s[p..], "youtu.be/") then (if IdAt(s, p + 9) then Some(p + 9) else None)
    else None
  }

  function YouTubeAtTest(s: string): nat -> bool { (p: nat) => YouTubeAt(s, p).Some? }

  /** `url.match(youtubeRegex)[1]`: the id of the leftmost match, if any. */
  function YouTubeId(s: string): (id: Option<string>)
    ensures id.Some? ==> IsVideoId(id.value) && Contains(s, id.value)
  {
    match FirstWhere(0, |s|, YouTubeAtTest(s))
    case None => None
    case Some(p) =>
      var k := YouTubeAt(s, p).value;
      ContainsAt(s, s[k..k + 11], k);
      Some(s[k..k + 11])
  }

  /** A match anywhere means the leftmost one exists. */
  lemma YouTubeFound(s: string, p: nat)
    requires YouTubeAt(s, p).Some?
    ensures YouTubeId(s).Some?
  {
    assert YouTubeAtTest(s)(p);
  }

  /** An id right after "youtu.be/" is found. */
  lemma ShortLinkFound(s: string, p: nat)
    requires p + 9 <= |s| && s[p..p + 9] == "youtu.be/" && IdAt(s, p + 9)
    ensures YouTubeId(s).Some?
  {
    assert StartsWith(s[p..], "youtu.be/");
    assert !StartsWith(s[p..], "youtube.com/") by {
      assert s[p..][5] == '.';
    }
    YouTubeFound(s, p);
  }

  // ---------------------------------------------------------------------------
  // The Vimeo expression
  // ---------------------------------------------------------------------------

  predicate IsDigit(c: char) { '0' <= c <= '9' }

  /** The longest run of digits at the start of `s` (greedy `\d+`). */
  function DigitRun(s: string): (d: string)
    ensures |d| <= |s| && d == s[..|d|]
    ensures forall i :: 0 <= i < |d| ==> IsDigit(d[i])
    ensures |d| == |s| || !IsDigit(s[|d|])
  {
    if s != [] && IsDigit(s[0]) then [s[0]] + DigitRun(s[1..]) else []
  }

  /** `vimeo\.com\/(\d+)` at `p`. */
  predicate VimeoAt(s: string, p: nat) {
    p + 10 < |s| && s[p..p + 10] == "vimeo.com/" && IsDigit(s[p + 10])
  }

  function VimeoAtTest(s: string): nat -> bool { (p: nat) => VimeoAt(s, p) }

  /** `url.match(vimeoRegex)[1]`: the whole run of digits after the first
      "vimeo.com/" that a digit follows. */
  function VimeoId(s: string): (id: Option<string>)
    ensures id.Some? ==> |id.value| > 0 && forall i :: 0 <= i < |id.value| ==> IsDigit(id.value[i])
  {
    match FirstWhere(0, |s|, VimeoAtTest(s))
    case None => None
    case Some(p) => Some(DigitRun(s[p + 10..]))
  }

  // ---------------------------------------------------------------------------
  // parseVideoUrl
  // ---------------------------------------------------------------------------

  datatype VideoType = YouTube | Vimeo

  /** `{ isVideo, videoType, videoId }`. */
  datatype VideoInfo = VideoInfo(isVideo: bool, videoType: Option<VideoType>, videoId: Option<string>)

  /** YouTube first, then Vimeo, else not a video. */
  function ParseVideoUrl(url: string): (v: VideoInfo)
    ensures v.isVideo <==> v.videoType.Some?
    ensures v.isVideo <==> v.videoId.Some?
    ensures v.videoType == Some(YouTube) ==> IsVideoId(v.videoId.value) && Contains(url, v.videoId.value)
    ensures v.videoType == Some(Vimeo) ==> YouTubeId(url).None?
  {
    match YouTubeId(url)
    case Some(id) => VideoInfo(true, Some(YouTube), Some(id))
    case None =>
      match VimeoId(url)
      case Some(id) => VideoInfo(true, Some(Vimeo), Some(id))
      case None => VideoInfo(false, None, None)
  }

  /** An address both expressions match is a YouTube video. */
  lemma YouTubeTriedFirst(url: string)
    requires YouTubeId(url).Some? && VimeoId(url).Some?
    ensures ParseVideoUrl(url).videoType == Some(YouTube)
  {
  }

  /** No YouTube match starts at a character other than 'y'. */
  lemma NoYouTubeAt(s: string, p: nat)
    requires p < |s| && s[p] != 'y'
    ensures !YouTubeAtTest(s)(p)
  {
    assert s[p..][0] == s[p];
  }

  /** No Vimeo match starts at a character other than 'v'. */
  lemma NoVimeoAt(s: string, p: nat)
    requires p < |s| && s[p] != 'v'
    ensures !VimeoAtTest(s)(p)
  {
    if p + 10 < |s| {
      assert s[p..p + 10][0] == s[p];
    }
  }

  /** Neither expression can match without a 'y' or a 'v' in the address. */
  lemma NoVideoWithoutLetters(url: string)
    requires forall i :: 0 <= i < |url| ==> url[i] != 'y' && url[i] != 'v'
    ensures ParseVideoUrl(url) == VideoInfo(false, None, None)
  {
    forall p: nat | p < |url|
      ensures !YouTubeAtTest(url)(p) && !VimeoAtTest(url)(p)
    {
      NoYouTubeAt(url, p);
      NoVimeoAt(url, p);
    }
    FirstWhereNone(0, |url|, YouTubeAtTest(url));
    FirstWhereNone(0, |url|, VimeoAtTest(url));
  }

  const WatchPrefix := "https://www.youtube.com/watch?v="

  /** A watch page's address gives its id. */
  lemma WatchPage(id: string)
    requires IsVideoId(id)
    ensures ParseVideoUrl(WatchPrefix + id) == VideoInfo(true, Some(YouTube), Some(id))
  {
    var s := WatchPrefix + id;
    WatchPageMatch(id);
    WatchPageNoEarlierMatch(id);
    FirstWhereIs(0, |s|, YouTubeAtTest(s), 12);
    assert s[32..32 + 11] == id;
  }

  /** Nothing in "https://www." starts a YouTube match. */
  lemma WatchPageNoEarlierMatch(id: string)
    ensures forall p: nat :: p < 12 ==> !YouTubeAtTest(WatchPrefix + id)(p)
  {
    var s := WatchPrefix + id;
    forall p: nat | p < 12
      ensures !YouTubeAtTest(s)(p)
    {
      assert s[p] == WatchPrefix[p];
      NoYouTubeAt(s, p);
    }
  }

  /** After "youtube.com/", only the "?v=" alternative matches, at 29. */
  lemma WatchPageMatch(id: string)
    requires IsVideoId(id)
    ensures YouTubeAt(WatchPrefix + id, 12) == Some(32)
  {
    var s := WatchPrefix + id;
    assert s[12..][..12] == "youtube.com/";
    WatchPagePath(id);
    WatchPageParam(id);
  }

  /** No "/" follows "youtube.com/", and the path is not "v/", "e/" or "embed/". */
  lemma WatchPagePath(id: string)
    requires IsVideoId(id)
    ensures TwoSegments(WatchPrefix + id, 24) == None && ShortPath(WatchPrefix + id, 24) == None
  {
    var s := WatchPrefix + id;
    WatchPageChars(id);
    FirstWhereNone(24, |s|, SlashAt(s));
    assert s[24..][0] == 'w';
  }

  /** The last "?v=" on the line is the one at 29. */
  lemma WatchPageParam(id: string)
    requires IsVideoId(id)
    ensures VParam(WatchPrefix + id, 24) == Some(32)
  {
    var s := WatchPrefix + id;
    WatchPageChars(id);
    assert LineEnd(s, 24) == |s|;
    assert s[32..32 + 11] == id;
    assert s[29] == WatchPrefix[29] && s[30] == WatchPrefix[30] && s[31] == WatchPrefix[31];
    assert ParamThenId(s)(29);
    LastWhereIs(24, |s|, ParamThenId(s), 29);
  }

  /** The characters of a watch page after "youtube.com/": no slash, no line
      break, and no `?` or `&` after the one before "v=". */
  lemma WatchPageChars(id: string)
    requires IsVideoId(id)
    ensures var s := WatchPrefix + id;
      && (forall i :: 32 <= i < |s| ==> s[i] == id[i - 32] && IsIdChar(s[i]))
      && (forall i :: 24 <= i < |s| ==> s[i] != '/' && !IsLineTerminator(s[i]) && (i > 29 ==> s[i] != '?' && s[i] != '&'))
  {
    var s := WatchPrefix + id;
    assert |WatchPrefix| == 32;
    forall i | 32 <= i < |s| ensures s[i] == id[i - 32] && IsIdChar(s[i]) {
    }
    forall i | 24 <= i < |s| ensures s[i] != '/' && !IsLineTerminator(s[i]) && (i > 29 ==> s[i] != '?' && s[i] != '&') {
      if i < 32 { assert s[i] == WatchPrefix[i]; }
    }
  }

  const VimeoPrefix := "https://vimeo.com/"

  /** A Vimeo address gives its number. */
  lemma VimeoPage(digits: string)
    requires |digits| > 0 && forall i :: 0 <= i < |digits| ==> IsDigit(digits[i])
    ensures ParseVideoUrl(VimeoPrefix + digits) == VideoInfo(true, Some(Vimeo), Some(digits))
  {
    var s := VimeoPrefix + digits;
    VimeoPageNotYouTube(digits);
    VimeoPageMatch(digits);
    assert s[18..] == digits;
    var d := DigitRun(digits);
    assert d == digits[..|digits|] == digits;
  }

  lemma VimeoPageNotYouTube(digits: string)
    requires forall i :: 0 <= i < |digits| ==> IsDigit(digits[i])
    ensures YouTubeId(VimeoPrefix + digits) == None
  {
    var s := VimeoPrefix + digits;
    assert |VimeoPrefix| == 18;
    forall p: nat | p < |s| ensures !YouTubeAtTest(s)(p) {
      if p < 18 { assert s[p] == VimeoPrefix[p]; } else { assert s[p] == digits[p - 18]; }
      NoYouTubeAt(s, p);
    }
    FirstWhereNone(0, |s|, YouTubeAtTest(s));
  }

  lemma VimeoPageMatch(digits: string)
    requires |digits| > 0 && forall i :: 0 <= i < |digits| ==> IsDigit(digits[i])
    ensures FirstWhere(0, |VimeoPrefix + digits|, VimeoAtTest(VimeoPrefix + digits)) == Some(8)
  {
    var s := VimeoPrefix + digits;
    assert |VimeoPrefix| == 18;
    forall p: nat | p < 8 ensures !VimeoAtTest(s)(p) {
      assert s[p] == VimeoPrefix[p];
      NoVimeoAt(s, p);
    }
    assert s[8..18] == "vimeo.com/";
    assert s[18] == digits[0];
    assert VimeoAtTest(s)(8);
    FirstWhereIs(0, |s|, VimeoAtTest(s), 8);
  }

  const ArticleUrl := "https://example.com/article"

  /** The hook's own examples: a watch page, a Vimeo page, and an article. */
  lemma WatchExample()
    ensures ParseVideoUrl(WatchPrefix + "dQw4w9WgXcQ") == VideoInfo(true, Some(YouTube), Some("dQw4w9WgXcQ"))
  {
    WatchPage("dQw4w9WgXcQ");
  }

  lemma VimeoExample()
    ensures ParseVideoUrl(VimeoPrefix + "76979871") == VideoInfo(true, Some(Vimeo), Some("76979871"))
  {
    VimeoPage("76979871");
  }

  lemma ArticleExample()
    ensures ParseVideoUrl(ArticleUrl) == VideoInfo(false, None, None)
  {
    NoVideoWithoutLetters(ArticleUrl);
  }

  // ---------------------------------------------------------------------------
  // The fallback record
  // ---------------------------------------------------------------------------

  datatype LinkMetadata = LinkMetadata(title: string, description: string, image: Option<string>, favicon: string)

  /** The record `fetchMetadata` returns when the service gives no data or the
      request fails: the host with its first "www." cut out as title, no
      description, no image, and that domain's favicon. `None` when the URL parser throws, which rejects the
      returned promise. */
  function FallbackMetadata(url: string, parseHost: string -> Option<string>): (m: Option<LinkMetadata>)
    ensures m.None? <==> parseHost(url).None?
    ensures m.Some? ==>
      (m.value.title == Links.DomainAsWritten(parseHost(url).value) && m.value.description == "" &&
       m.value.image.None? && m.value.favicon == Links.Favicon(m.value.title))
  {
    match parseHost(url)
    case None => None
    case Some(host) =>
      var domain := Links.DomainAsWritten(host);
      Some(LinkMetadata(domain, "", None, Links.Favicon(domain)))
  }

  /** The fallback names a link the way the links page names a link it saves
      for the same address. */
  lemma FallbackAgreesWithSavedLink(input: string, parseHost: string -> Option<string>)
    requires Links.AddLinkAttempt(input, parseHost).Saved?
    ensures var data := Links.AddLinkAttempt(input, parseHost).data;
      var m := FallbackMetadata(data.url, parseHost);
      m.Some? && m.value.title == data.title && m.value.favicon == data.favicon && m.value.description == data.description
  {
  }
}
