/**
 * The video URL classifier: the per-platform id extractors, written as explicit
 * leftmost-first scans that follow the semantics of the regular expressions they
 * replace, the direct-file test, and the ordered classification that builds
 * embed URLs.
 */
module VideoUrl {
  import opened Wrappers
  import opened JsString

  // ---------------------------------------------------------------------------------
  // Character classes and literals

  /** The classes the patterns use: `[^&\n?#]`, `\d`, `[^_]` and the `.` wildcard. */
  datatype CharClass = IdChars | Digits | NotUnderscore | Dot

  predicate InClass(cls: CharClass, c: char) {
    match cls
    case IdChars => c != '&' && c != '\n' && c != '?' && c != '#'
    case Digits => IsDigit(c)
    case NotUnderscore => c != '_'
    case Dot => !IsLineTerminator(c)
  }

  /** `lit` occurs in `s` at index `p`. */
  predicate LiteralAt(s: string, p: nat, lit: string) {
    p + |lit| <= |s| && s[p..p + |lit|] == lit
  }

  /** The length of the longest run of class characters starting at `q` (what a greedy `+` or `*` takes). */
  function RunLength(s: string, q: nat, cls: CharClass): (n: nat)
    requires q <= |s|
    ensures q + n <= |s|
    ensures forall j :: q <= j < q + n ==> InClass(cls, s[j])
    ensures q + n < |s| ==> !InClass(cls, s[q + n])
    decreases |s| - q
  {
    if q < |s| && InClass(cls, s[q]) then 1 + RunLength(s, q + 1, cls) else 0
  }

  // ---------------------------------------------------------------------------------
  // Alternatives followed by a captured run: `(?:a|b|c)(X+)`

  /** Alternative `lit` matches at `p` and is followed by at least one class character. */
  predicate AltMatchesAt(s: string, p: nat, lit: string, cls: CharClass) {
    LiteralAt(s, p, lit) && p + |lit| < |s| && InClass(cls, s[p + |lit|])
  }

  /** A match of the pattern: where it starts, which alternative matched, and the captured run. */
  datatype Capture = Capture(start: nat, alt: nat, idStart: nat, idLen: nat)

  /** The first alternative, from index `k` on, that matches at `p`. */
  function FirstAlt(s: string, p: nat, alts: seq<string>, cls: CharClass, k: nat): (r: Option<nat>)
    requires k <= |alts|
    ensures r.Some? ==> k <= r.value < |alts| && AltMatchesAt(s, p, alts[r.value], cls)
    ensures r.Some? ==> forall j :: k <= j < r.value ==> !AltMatchesAt(s, p, alts[j], cls)
    ensures r.None? ==> forall j :: k <= j < |alts| ==> !AltMatchesAt(s, p, alts[j], cls)
    decreases |alts| - k
  {
    if k == |alts| then None
    else if AltMatchesAt(s, p, alts[k], cls) then Some(k)
    else FirstAlt(s, p, alts, cls, k + 1)
  }

  /** `p` is the start a regular-expression search finds: the alternatives are tried in order there. */
  ghost predicate IsLeftmostCapture(s: string, from: nat, alts: seq<string>, cls: CharClass, c: Capture) {
    && from <= c.start && c.alt < |alts|
    && AltMatchesAt(s, c.start, alts[c.alt], cls)
    && (forall j :: 0 <= j < c.alt ==> !AltMatchesAt(s, c.start, alts[j], cls))
    && (forall p, j :: from <= p < c.start && 0 <= j < |alts| ==> !AltMatchesAt(s, p, alts[j], cls))
    && c.idStart == c.start + |alts[c.alt]|
    && c.idLen == RunLength(s, c.idStart, cls)
  }

  /** The leftmost-first search from index `i`: the capture of the first position where some alternative matches. */
  function Search(s: string, i: nat, alts: seq<string>, cls: CharClass): (r: Option<Capture>)
    ensures r.Some? ==> IsLeftmostCapture(s, i, alts, cls, r.value)
    ensures r.None? ==> forall p, j :: i <= p && 0 <= j < |alts| ==> !AltMatchesAt(s, p, alts[j], cls)
    decreases |s| - i
  {
    if i >= |s| then None
    else
      match FirstAlt(s, i, alts, cls, 0)
      case Some(k) =>
        var q := i + |alts[k]|;
        Some(Capture(i, k, q, RunLength(s, q, cls)))
      case None => Search(s, i + 1, alts, cls)
  }

  /** The captured text of a search. */
  function CapturedText(s: string, c: Capture): string
    requires c.idStart + c.idLen <= |s|
  {
    s[c.idStart..c.idStart + c.idLen]
  }

  /** `s.match(/(?:alts)(cls+)/)?.[1]`: the capture of the leftmost match, if any. */
  function MatchAlternatives(s: string, alts: seq<string>, cls: CharClass): (r: Option<string>)
    ensures r.Some? ==> r.value != [] && forall k :: 0 <= k < |r.value| ==> InClass(cls, r.value[k])
  {
    match Search(s, 0, alts, cls)
    case None => None
    case Some(c) =>
      assert AltMatchesAt(s, c.start, alts[c.alt], cls);
      Some(CapturedText(s, c))
  }

  /** There is no capture exactly when no alternative matches anywhere. */
  lemma MatchAlternativesNone(s: string, alts: seq<string>, cls: CharClass)
    ensures MatchAlternatives(s, alts, cls).None? <==> forall p: nat, j :: 0 <= j < |alts| ==> !AltMatchesAt(s, p, alts[j], cls)
  {
    var r := Search(s, 0, alts, cls);
    if r.Some? {
      assert AltMatchesAt(s, r.value.start, alts[r.value.alt], cls);
    }
  }

  /** The captured id is maximal: it ends at the end of the URL or before a character outside the class,
      and the URL is the part before it, the id, and the rest. */
  lemma CaptureIsMaximal(s: string, alts: seq<string>, cls: CharClass)
    requires Search(s, 0, alts, cls).Some?
    ensures var c := Search(s, 0, alts, cls).value;
      && c.idStart + c.idLen <= |s|
      && (c.idStart + c.idLen == |s| || !InClass(cls, s[c.idStart + c.idLen]))
      && s == s[..c.idStart] + CapturedText(s, c) + s[c.idStart + c.idLen..]
      && s[c.start..c.idStart] == alts[c.alt]
  {
    var c := Search(s, 0, alts, cls).value;
    assert IsLeftmostCapture(s, 0, alts, cls, c);
    assert LiteralAt(s, c.start, alts[c.alt]);
    var e := c.idStart + c.idLen;
    assert s[..c.idStart] + s[c.idStart..e] == s[..e];
    assert s[..e] + s[e..] == s;
  }

  // ---------------------------------------------------------------------------------
  // The second YouTube pattern: `youtube\.com\/watch\?.*v=([^&\n?#]+)`

  const WatchQuery := "youtube.com/watch?"

  /** `v=` at `q` followed by an id character. */
  predicate VParamAt(s: string, q: nat) {
    LiteralAt(s, q, "v=") && q + 2 < |s| && InClass(IdChars, s[q + 2])
  }

  /** The greedy `.*` backtracks from the longest wildcard run: the largest `q` in `[lo, hi]` with `v=` and an id character. */
  function LastVParam(s: string, lo: nat, hi: nat): (r: Option<nat>)
    requires lo <= hi
    ensures r.Some? ==> lo <= r.value <= hi && VParamAt(s, r.value)
    ensures r.Some? ==> forall q :: r.value < q <= hi ==> !VParamAt(s, q)
    ensures r.None? ==> forall q :: lo <= q <= hi ==> !VParamAt(s, q)
    decreases hi - lo
  {
    if VParamAt(s, hi) then Some(hi)
    else if hi == lo then None
    else LastVParam(s, lo, hi - 1)
  }

  /** The end of the wildcard run after the watch prefix at `p`. */
  function WildcardEnd(s: string, p: nat): nat
    requires LiteralAt(s, p, WatchQuery)
  {
    p + |WatchQuery| + RunLength(s, p + |WatchQuery|, Dot)
  }

  /** The watch pattern matches at `p`: the prefix, then a `v=` parameter somewhere in the wildcard run. */
  ghost predicate WatchMatchesAt(s: string, p: nat) {
    LiteralAt(s, p, WatchQuery)
    && exists q :: p + |WatchQuery| <= q <= WildcardEnd(s, p) && VParamAt(s, q)
  }

  /** The leftmost watch match from `i`: its start and the position of the chosen `v=`. */
  function SearchWatch(s: string, i: nat): (r: Option<(nat, nat)>)
    ensures r.Some? ==> var (p, q) := r.value;
      && i <= p && LiteralAt(s, p, WatchQuery)
      && p + |WatchQuery| <= q <= WildcardEnd(s, p) && VParamAt(s, q)
      && (forall q' :: q < q' <= WildcardEnd(s, p) ==> !VParamAt(s, q'))
      && (forall p' :: i <= p' < p ==> !WatchMatchesAt(s, p'))
    ensures r.None? ==> forall p' :: i <= p' ==> !WatchMatchesAt(s, p')
    decreases |s| - i
  {
    if i >= |s| then None
    else if LiteralAt(s, i, WatchQuery) then
      match LastVParam(s, i + |WatchQuery|, WildcardEnd(s, i))
      case Some(q) => Some((i, q))
      case None =>
        assert !WatchMatchesAt(s, i);
        SearchWatch(s, i + 1)
    else
      assert !WatchMatchesAt(s, i);
      SearchWatch(s, i + 1)
  }

  /** `url.match(/youtube\.com\/watch\?.*v=([^&\n?#]+)/)?.[1]`. */
  function MatchWatchQuery(s: string): (r: Option<string>)
    ensures r.Some? ==> r.value != [] && forall k :: 0 <= k < |r.value| ==> InClass(IdChars, r.value[k])
  {
    match SearchWatch(s, 0)
    case None => None
    case Some((p, q)) =>
      assert VParamAt(s, q);
      var n := RunLength(s, q + 2, IdChars);
      var id := s[q + 2..q + 2 + n];
      assert forall k :: 0 <= k < n ==> id[k] == s[q + 2 + k];
      Some(id)
  }

  /** There is no capture exactly when the watch pattern matches nowhere. */
  lemma MatchWatchQueryNone(s: string)
    ensures MatchWatchQuery(s).None? <==> forall p: nat :: !WatchMatchesAt(s, p)
  {
    var r := SearchWatch(s, 0);
    if r.Some? {
      var (p, q) := r.value;
      assert WatchMatchesAt(s, p);
    }
  }

  // ---------------------------------------------------------------------------------
  // The extractors

  const YouTubeAlts: seq<string> := ["youtube.com/watch?v=", "youtu.be/", "youtube.com/embed/"]
  const VimeoAlts: seq<string> := ["vimeo.com/video/", "vimeo.com/"]
  const DailymotionAlts: seq<string> := ["dailymotion.com/video/"]
  const TwitchAlts: seq<string> := ["twitch.tv/videos/"]

  /** A pattern of the YouTube list. */
  datatype IdPattern = Alternatives(alts: seq<string>, cls: CharClass) | WatchQueryV

  function MatchPattern(s: string, pattern: IdPattern): Option<string> {
    match pattern
    case Alternatives(alts, cls) => MatchAlternatives(s, alts, cls)
    case WatchQueryV => MatchWatchQuery(s)
  }

  const YouTubePatterns: seq<IdPattern> := [Alternatives(YouTubeAlts, IdChars), WatchQueryV]

  /** The YouTube id: the first pattern's capture, else the second's. */
  function YouTubeId(url: string): (r: Option<string>)
    ensures r.Some? ==> r.value != [] && forall k :: 0 <= k < |r.value| ==> InClass(IdChars, r.value[k])
  {
    var first := MatchAlternatives(url, YouTubeAlts, IdChars);
    if first.Some? then first else MatchWatchQuery(url)
  }

  /** `getYouTubeVideoId`: tries the patterns in order and returns the first capture. */
  method GetYouTubeVideoId(url: string) returns (id: Option<string>)
    ensures id == YouTubeId(url)
  {
    var patterns := YouTubePatterns;
    assert patterns[0] == Alternatives(YouTubeAlts, IdChars) && patterns[1] == WatchQueryV;
    for i := 0 to |patterns|
      invariant forall k :: 0 <= k < i ==> MatchPattern(url, patterns[k]).None?
    {
      var m := MatchPattern(url, patterns[i]);
      if m.Some? {
        return m;
      }
    }
    return None;
  }

  function VimeoId(url: string): (r: Option<string>)
    ensures r.Some? ==> r.value != [] && forall k :: 0 <= k < |r.value| ==> IsDigit(r.value[k])
  {
    MatchAlternatives(url, VimeoAlts, Digits)
  }

  function DailymotionId(url: string): (r: Option<string>)
    ensures r.Some? ==> r.value != [] && forall k :: 0 <= k < |r.value| ==> r.value[k] != '_'
  {
    MatchAlternatives(url, DailymotionAlts, NotUnderscore)
  }

  function TwitchId(url: string): (r: Option<string>)
    ensures r.Some? ==> r.value != [] && forall k :: 0 <= k < |r.value| ==> IsDigit(r.value[k])
  {
    MatchAlternatives(url, TwitchAlts, Digits)
  }

  /** A Vimeo id is taken after `vimeo.com/video/` when digits follow it there, else after `vimeo.com/`. */
  lemma VimeoPrefersVideoPath(url: string, p: nat)
    requires forall p': nat, j :: p' < p && 0 <= j < |VimeoAlts| ==> !AltMatchesAt(url, p', VimeoAlts[j], Digits)
    requires AltMatchesAt(url, p, "vimeo.com/video/", Digits)
    ensures Search(url, 0, VimeoAlts, Digits) == Some(Capture(p, 0, p + 16, RunLength(url, p + 16, Digits)))
  {
    SearchSkips(url, 0, p, VimeoAlts, Digits);
  }

  /** The search passes over positions where no alternative matches. */
  lemma {:induction false} SearchSkips(s: string, i: nat, p: nat, alts: seq<string>, cls: CharClass)
    requires i <= p
    requires forall p': nat, j :: i <= p' < p && 0 <= j < |alts| ==> !AltMatchesAt(s, p', alts[j], cls)
    ensures Search(s, i, alts, cls) == Search(s, p, alts, cls)
    decreases p - i
  {
    if i < p {
      if i < |s| {
        assert forall j :: 0 <= j < |alts| ==> !AltMatchesAt(s, i, alts[j], cls);
        assert FirstAlt(s, i, alts, cls, 0).None?;
        assert Search(s, i, alts, cls) == Search(s, i + 1, alts, cls);
      }
      SearchSkips(s, i + 1, p, alts, cls);
    }
  }

  // ---------------------------------------------------------------------------------
  // Direct files: `/\.(mp4|webm|ogg|mov|avi)(\?.*)?$/i`

  const VideoExtensions: seq<string> := ["mp4", "webm", "ogg", "mov", "avi"]

  /** ASCII lower case, the folding the `i` flag applies to these letters. */
  function LowerAscii(c: char): char {
    if 'A' <= c <= 'Z' then (c as int + 32) as char else c
  }

  /** `lit` (lower case) occurs at `p` ignoring ASCII case. */
  predicate LiteralAtIgnoreCase(s: string, p: nat, lit: string) {
    p + |lit| <= |s| && forall k :: 0 <= k < |lit| ==> LowerAscii(s[p + k]) == lit[k]
  }

  /** What may follow the extension: the end, or `?` and a wildcard run up to the end. */
  predicate QueryTail(s: string, j: nat) {
    j == |s| || (j < |s| && s[j] == '?' && forall k :: j < k < |s| ==> !IsLineTerminator(s[k]))
  }

  /** The direct pattern matches at `p`: a dot, an extension ignoring case, then the optional query to the end. */
  predicate DirectAt(s: string, p: nat) {
    p < |s| && s[p] == '.' &&
    exists e :: 0 <= e < |VideoExtensions| && LiteralAtIgnoreCase(s, p + 1, VideoExtensions[e])
                                           && QueryTail(s, p + 1 + |VideoExtensions[e]|)
  }

  function ExtensionFits(s: string, p: nat, e: nat): (r: bool)
    requires e <= |VideoExtensions|
    ensures r <==> exists e' :: e <= e' < |VideoExtensions| && LiteralAtIgnoreCase(s, p, VideoExtensions[e'])
                                                          && QueryTail(s, p + |VideoExtensions[e']|)
    decreases |VideoExtensions| - e
  {
    if e == |VideoExtensions| then false
    else if LiteralAtIgnoreCase(s, p, VideoExtensions[e]) && QueryTail(s, p + |VideoExtensions[e]|) then true
    else ExtensionFits(s, p, e + 1)
  }

  /** Whether the direct pattern matches anywhere from `i` on. */
  function DirectFrom(s: string, i: nat): (r: bool)
    ensures r <==> exists p :: i <= p && DirectAt(s, p)
    decreases |s| - i
  {
    if i >= |s| then false
    else if s[i] == '.' && ExtensionFits(s, i + 1, 0) then
      assert DirectAt(s, i);
      true
    else
      assert !DirectAt(s, i);
      DirectFrom(s, i + 1)
  }

  /** `url.match(/\.(mp4|webm|ogg|mov|avi)(\?.*)?$/i)` is truthy. */
  function IsDirectVideoUrl(url: string): (r: bool)
    ensures r <==> exists p :: DirectAt(url, p)
  {
    DirectFrom(url, 0)
  }

  /** A URL ending in one of the extensions (any case) is a direct video, and so is one with a query after it. */
  lemma DirectBySuffix(base: string, e: nat, query: string)
    requires e < |VideoExtensions|
    requires forall k :: 0 <= k < |query| ==> !IsLineTerminator(query[k])
    ensures IsDirectVideoUrl(base + "." + VideoExtensions[e])
    ensures IsDirectVideoUrl(base + "." + VideoExtensions[e] + "?" + query)
  {
    var ext := VideoExtensions[e];
    var s := base + "." + ext;
    assert LiteralAtIgnoreCase(s, |base| + 1, ext);
    assert DirectAt(s, |base|);
    var t := base + "." + ext + "?" + query;
    assert LiteralAtIgnoreCase(t, |base| + 1, ext);
    assert QueryTail(t, |base| + 1 + |ext|);
    assert DirectAt(t, |base|);
  }

  /** Upper-case extensions count too. */
  lemma DirectIgnoresCase()
    ensures IsDirectVideoUrl("a.MP4")
  {
    assert LiteralAtIgnoreCase("a.MP4", 2, VideoExtensions[0]);
    assert DirectAt("a.MP4", 1);
  }

  // ---------------------------------------------------------------------------------
  // Classification

  datatype VideoKind = File | YouTube | Vimeo | Dailymotion | Twitch | Direct

  datatype VideoData = VideoData(url: string, kind: VideoKind, embedUrl: Option<string>)

  predicate IsPlatform(k: VideoKind) {
    k == YouTube || k == Vimeo || k == Dailymotion || k == Twitch
  }

  function YouTubeEmbed(id: string): string {
    "https://www.youtube.com/embed/" + id + "?enablejsapi=1&rel=0"
  }

  function VimeoEmbed(id: string): string {
    "https://player.vimeo.com/video/" + id + "?title=0&byline=0&portrait=0"
  }

  function DailymotionEmbed(id: string): string {
    "https://www.dailymotion.com/embed/video/" + id
  }

  function TwitchEmbed(id: string, hostname: string): string {
    "https://player.twitch.tv/?video=" + id + "&parent=" + hostname + "&autoplay=false"
  }

  /**
   * `detectVideoType`: the trimmed URL, classified. Surrounding white space never
   * changes the answer, because trimming is idempotent.
   */
  function DetectVideoType(url: string, hostname: string): (v: VideoData)
    ensures v.url == Trim(url)
    ensures v.embedUrl.Some? <==> IsPlatform(v.kind)
  {
    Classify(Trim(url), hostname)
  }

  /**
   * The classification of a trimmed URL: the first platform whose extractor finds an
   * id, in the order YouTube, Vimeo, Dailymotion, Twitch; else a direct file when the
   * extension test passes; else a plain file. `hostname` is the page's host name.
   */
  function Classify(clean: string, hostname: string): (v: VideoData)
    ensures v.url == clean
    ensures v.embedUrl.Some? <==> IsPlatform(v.kind)
  {
    var youtube := YouTubeId(clean);
    if youtube.Some? then VideoData(clean, YouTube, Some(YouTubeEmbed(youtube.value)))
    else
      var vimeo := VimeoId(clean);
      if vimeo.Some? then VideoData(clean, Vimeo, Some(VimeoEmbed(vimeo.value)))
      else
        var dailymotion := DailymotionId(clean);
        if dailymotion.Some? then VideoData(clean, Dailymotion, Some(DailymotionEmbed(dailymotion.value)))
        else
          var twitch := TwitchId(clean);
          if twitch.Some? then VideoData(clean, Twitch, Some(TwitchEmbed(twitch.value, hostname)))
          else if IsDirectVideoUrl(clean) then VideoData(clean, Direct, None)
          else VideoData(clean, File, None)
  }

  /**
   * The classification order: a platform is chosen only when every platform before it
   * finds no id, its embed URL is built from its own id, and a URL no platform
   * recognises is direct exactly when the extension test passes.
   */
  lemma ClassificationOrder(clean: string, hostname: string)
    ensures var v := Classify(clean, hostname);
      && (v.kind == YouTube <==> YouTubeId(clean).Some?)
      && (v.kind == YouTube ==> v.embedUrl == Some(YouTubeEmbed(YouTubeId(clean).value)))
      && (v.kind == Vimeo <==> YouTubeId(clean).None? && VimeoId(clean).Some?)
      && (v.kind == Vimeo ==> v.embedUrl == Some(VimeoEmbed(VimeoId(clean).value)))
      && (v.kind == Dailymotion <==> YouTubeId(clean).None? && VimeoId(clean).None? && DailymotionId(clean).Some?)
      && (v.kind == Dailymotion ==> v.embedUrl == Some(DailymotionEmbed(DailymotionId(clean).value)))
      && (v.kind == Twitch <==> (YouTubeId(clean).None? && VimeoId(clean).None?
                                 && DailymotionId(clean).None? && TwitchId(clean).Some?))
      && (v.kind == Twitch ==> v.embedUrl == Some(TwitchEmbed(TwitchId(clean).value, hostname)))
      && (!IsPlatform(v.kind) ==> (v.kind == Direct <==> IsDirectVideoUrl(clean)))
  {
  }

  /** Classifying an already trimmed URL gives the same answer: surrounding white space never matters. */
  lemma DetectIgnoresSurroundingSpace(url: string, hostname: string)
    ensures DetectVideoType(Trim(url), hostname) == DetectVideoType(url, hostname)
  {
    TrimIdempotent(url);
  }

  /** A run of class characters up to the end is taken whole. */
  lemma {:induction false} RunToEnd(s: string, q: nat, cls: CharClass)
    requires q <= |s|
    requires forall j :: q <= j < |s| ==> InClass(cls, s[j])
    ensures RunLength(s, q, cls) == |s| - q
    decreases |s| - q
  {
    if q < |s| {
      RunToEnd(s, q + 1, cls);
    }
  }

  /** The id of a short YouTube link is the whole path after `youtu.be/`. */
  lemma ShortLinkId(id: string)
    requires id != [] && forall k :: 0 <= k < |id| ==> InClass(IdChars, id[k])
    ensures YouTubeId("youtu.be/" + id) == Some(id)
  {
    var s := "youtu.be/" + id;
    assert s[..9] == "youtu.be/";
    assert s[5] == '.' && YouTubeAlts[0][5] == 'b';
    assert !LiteralAt(s, 0, YouTubeAlts[0]);
    assert LiteralAt(s, 0, YouTubeAlts[1]);
    assert s[9] == id[0];
    assert FirstAlt(s, 0, YouTubeAlts, IdChars, 0) == Some(1);
    RunToEnd(s, 9, IdChars);
    assert Search(s, 0, YouTubeAlts, IdChars) == Some(Capture(0, 1, 9, |id|));
    assert s[9..9 + |id|] == id;
    assert MatchAlternatives(s, YouTubeAlts, IdChars) == Some(id);
  }

  /** A short YouTube link is classified as YouTube with the embed URL of its id. */
  lemma ShortLinkClassified(id: string, hostname: string)
    requires id != [] && forall k :: 0 <= k < |id| ==> InClass(IdChars, id[k])
    ensures Classify("youtu.be/" + id, hostname) == VideoData("youtu.be/" + id, YouTube, Some(YouTubeEmbed(id)))
  {
    ShortLinkId(id);
  }
}
