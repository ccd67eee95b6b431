/**
 * Where the slides come from and how many workers extract them: `resolveSlidesWorkers`,
 * `resolveSlideSource` and the slug of `buildDirectSourceId`. URL parsing, the YouTube id
 * extractor, the media-URL tests, `Number()` and sha1 are oracles.
 */
module SlideSources {
  import opened Wrappers
  import opened Numeric
  import opened Text
  import opened SlideTypes
  import Seqs

  // ---------------------------------------------------------------------------------------
  // resolveSlidesWorkers

  const DefaultSlidesWorkers: int := 8

  /** `Number(raw)` restricted to finite values: `None` for `NaN` and the infinities. */
  type NumberParser = string -> Option<real>

  /** `env.SUMMARIZE_SLIDES_WORKERS ?? env.SLIDES_WORKERS`: `??` skips only an unset variable. */
  function WorkersSetting(env: map<string, string>): (raw: Option<string>)
    ensures "SUMMARIZE_SLIDES_WORKERS" in env ==> raw == Some(env["SUMMARIZE_SLIDES_WORKERS"])
    ensures raw.None? <==> "SUMMARIZE_SLIDES_WORKERS" !in env && "SLIDES_WORKERS" !in env
  {
    if "SUMMARIZE_SLIDES_WORKERS" in env then Some(env["SUMMARIZE_SLIDES_WORKERS"])
    else if "SLIDES_WORKERS" in env then Some(env["SLIDES_WORKERS"])
    else None
  }

  /**
   * The worker count: the default for an unset or empty setting, for a value that is not a
   * finite number, and for one that is not positive; otherwise the value rounded and clamped.
   */
  function ResolveSlidesWorkers(env: map<string, string>, number: NumberParser): (r: int)
    ensures 1 <= r <= 16
    ensures WorkersSetting(env).None? || WorkersSetting(env).value == "" ==> r == DefaultSlidesWorkers
    ensures WorkersSetting(env).Some? && WorkersSetting(env).value != "" ==>
              var parsed := number(WorkersSetting(env).value);
              if parsed.None? || parsed.value <= 0.0 then r == DefaultSlidesWorkers
              else r == ClampInt(Round(parsed.value), 1, 16)
  {
    var raw := WorkersSetting(env);
    if raw.None? || raw.value == "" then DefaultSlidesWorkers
    else
      var parsed := number(raw.value);
      if parsed.None? || parsed.value <= 0.0 then DefaultSlidesWorkers
      else MaxInt(1, MinInt(16, Round(parsed.value)))
  }

  /**
   * The first variable, once set, decides alone, even when it is empty: an empty
   * `SUMMARIZE_SLIDES_WORKERS` gives the default whatever `SLIDES_WORKERS` says.
   */
  lemma WorkersPrimaryShadows(env: map<string, string>, number: NumberParser)
    requires "SUMMARIZE_SLIDES_WORKERS" in env
    ensures ResolveSlidesWorkers(env, number)
         == ResolveSlidesWorkers(map["SUMMARIZE_SLIDES_WORKERS" := env["SUMMARIZE_SLIDES_WORKERS"]], number)
    ensures env["SUMMARIZE_SLIDES_WORKERS"] == "" ==> ResolveSlidesWorkers(env, number) == DefaultSlidesWorkers
  {
  }

  /** A positive whole number of at most 16 workers is taken as it is. */
  lemma WorkersInRangeKept(env: map<string, string>, number: NumberParser, n: int)
    requires WorkersSetting(env).Some? && WorkersSetting(env).value != ""
    requires number(WorkersSetting(env).value) == Some(n as real)
    requires 1 <= n <= 16
    ensures ResolveSlidesWorkers(env, number) == n
  {
    RoundOfInteger(n);
  }

  // ---------------------------------------------------------------------------------------
  // buildDirectSourceId

  /** The class `[a-z0-9]` without the case-insensitive flag. */
  predicate IsSlugChar(c: char) {
    ('a' <= c <= 'z') || IsAsciiDigit(c)
  }

  /** The length of the longest suffix of `s` made of `[a-z0-9]` under the case-insensitive flag. */
  function AlnumSuffixLength(s: string): (k: nat)
    ensures k <= |s|
    ensures forall i :: |s| - k <= i < |s| ==> IsAsciiAlnum(s[i])
    ensures k < |s| ==> !IsAsciiAlnum(s[|s| - k - 1])
  {
    if s == [] || !IsAsciiAlnum(s[|s| - 1]) then 0 else AlnumSuffixLength(s[..|s| - 1]) + 1
  }

  /**
   * `name.replace(/\.[a-z0-9]+$/i, '')`: a dot followed by letters and digits up to the end is
   * removed; `.` is no letter or digit, so only the last dot can start the match.
   */
  function StripExtension(name: string): (r: string)
    ensures r == name || (exists k :: 0 <= k < |name| && name[k] == '.' && r == name[..k])
  {
    var k := AlnumSuffixLength(name);
    if 0 < k < |name| && name[|name| - k - 1] == '.' then name[..|name| - k - 1] else name
  }

  /** The non-slug characters at the front of `s`. */
  function SkipNonSlug(s: string): (r: string)
    ensures |r| <= |s| && r == s[|s| - |r|..]
    ensures r == [] || IsSlugChar(r[0])
  {
    if s != [] && !IsSlugChar(s[0]) then
      var r := SkipNonSlug(s[1..]);
      assert s[1..][|s| - 1 - |r|..] == s[|s| - |r|..];
      r
    else s
  }

  /** Two dashes in a row at position `i`. */
  predicate DoubleDash(s: string, i: int)
    requires 0 <= i < |s| - 1
  {
    s[i] == '-' && s[i + 1] == '-'
  }

  /** No two dashes in a row. */
  predicate SingleDashes(s: string) {
    forall i :: 0 <= i < |s| - 1 ==> !DoubleDash(s, i)
  }

  /** A character in front keeps dashes single unless it is a dash before a dash. */
  lemma SingleDashesCons(c: char, s: string)
    requires SingleDashes(s)
    requires c != '-' || s == [] || s[0] != '-'
    ensures SingleDashes([c] + s)
  {
    var r := [c] + s;
    forall i | 0 <= i < |r| - 1 ensures !DoubleDash(r, i) {
      if i > 0 {
        assert r[i] == s[i - 1] && r[i + 1] == s[i];
        assert !DoubleDash(s, i - 1);
      }
    }
  }

  /** Dropping the first character keeps dashes single. */
  lemma SingleDashesTail(s: string)
    requires s != [] && SingleDashes(s)
    ensures SingleDashes(s[1..])
  {
    var t := s[1..];
    forall i | 0 <= i < |t| - 1 ensures !DoubleDash(t, i) {
      assert t[i] == s[i + 1] && t[i + 1] == s[i + 2];
      assert !DoubleDash(s, i + 1);
    }
  }

  /** `s.replace(/[^a-z0-9]+/g, '-')`: every maximal run of other characters becomes one dash. */
  function Dashify(s: string): (r: string)
    ensures forall i :: 0 <= i < |r| ==> IsSlugChar(r[i]) || r[i] == '-'
    ensures SingleDashes(r)
    ensures r != [] <==> s != []
    ensures s != [] && IsSlugChar(s[0]) ==> r[0] == s[0]
    ensures s != [] && !IsSlugChar(s[0]) ==> r[0] == '-'
    decreases |s|
  {
    if s == [] then []
    else if IsSlugChar(s[0]) then
      var rest := Dashify(s[1..]);
      SingleDashesCons(s[0], rest);
      [s[0]] + rest
    else
      var rest := Dashify(SkipNonSlug(s[1..]));
      SingleDashesCons('-', rest);
      "-" + rest
  }

  /** `s.replace(/^-+/, '')`. */
  function TrimLeadingDashes(s: string): (r: string)
    ensures |r| <= |s| && r == s[|s| - |r|..]
    ensures r == [] || r[0] != '-'
    ensures forall i :: 0 <= i < |s| - |r| ==> s[i] == '-'
  {
    if s != [] && s[0] == '-' then
      var r := TrimLeadingDashes(s[1..]);
      assert s[1..][|s| - 1 - |r|..] == s[|s| - |r|..];
      r
    else s
  }

  /** `s.replace(/-+$/, '')`. */
  function TrimTrailingDashes(s: string): (r: string)
    ensures |r| <= |s| && r == s[..|r|]
    ensures r == [] || r[|r| - 1] != '-'
    ensures forall i :: |r| <= i < |s| ==> s[i] == '-'
  {
    if s != [] && s[|s| - 1] == '-' then
      var r := TrimTrailingDashes(s[..|s| - 1]);
      assert s[..|s| - 1][..|r|] == s[..|r|];
      r
    else s
  }

  /** The shape of a slug: lower-case letters and digits, single dashes inside, none at the ends. */
  predicate IsSlug(s: string) {
    && (forall i :: 0 <= i < |s| ==> IsSlugChar(s[i]) || s[i] == '-')
    && SingleDashes(s)
    && (s == [] || (s[0] != '-' && s[|s| - 1] != '-'))
  }

  /** `base.toLowerCase().replace(/[^a-z0-9]+/g, '-').replace(/^-+|-+$/g, '')`. */
  function Slugify(base: string): (r: string)
    ensures IsSlug(r)
  {
    var d := Dashify(ToAsciiLower(base));
    TrimmedDashesIsSlug(d);
    TrimTrailingDashes(TrimLeadingDashes(d))
  }

  /** Slug characters and single dashes, with the dashes at both ends removed, make a slug. */
  lemma TrimmedDashesIsSlug(d: string)
    requires forall i :: 0 <= i < |d| ==> IsSlugChar(d[i]) || d[i] == '-'
    requires SingleDashes(d)
    ensures IsSlug(TrimTrailingDashes(TrimLeadingDashes(d)))
  {
    var t := TrimLeadingDashes(d);
    var r := TrimTrailingDashes(t);
    TrimmedDashesSlice(d);
    TrimmedDashesEnds(d);
    assert SliceAt(r, d, |d| - |t|);
    assert r == [] || (r[0] != '-' && r[|r| - 1] != '-');
    SlugOfSlice(d, |d| - |t|, r);
    assert IsSlug(r);
  }

  /** `r` is the run of `d` starting at `lo`. */
  ghost predicate SliceAt(r: string, d: string, lo: int) {
    0 <= lo && lo + |r| <= |d| && forall i :: 0 <= i < |r| ==> r[i] == d[lo + i]
  }

  /** Removing the dashes at both ends leaves a slice of the input. */
  lemma TrimmedDashesSlice(d: string)
    ensures var t := TrimLeadingDashes(d);
            var r := TrimTrailingDashes(t);
      && |d| - |t| + |r| <= |d|
      && SliceAt(r, d, |d| - |t|)
  {
    var t := TrimLeadingDashes(d);
    var r := TrimTrailingDashes(t);
    var off := |d| - |t|;
    assert t == d[off..] && r == t[..|r|];
    forall i | 0 <= i < |r| ensures r[i] == d[off + i] {
      assert r[i] == t[..|r|][i] == t[i];
      assert t[i] == d[off..][i];
    }
  }

  /** Removing the dashes at both ends leaves no dash at either end. */
  lemma TrimmedDashesEnds(d: string)
    ensures var r := TrimTrailingDashes(TrimLeadingDashes(d));
      r == [] || (r[0] != '-' && r[|r| - 1] != '-')
  {
    var t := TrimLeadingDashes(d);
    var r := TrimTrailingDashes(t);
    if r != [] {
      assert r[0] == t[0];
    }
  }

  /** A run of slug characters and single dashes, without a dash at either end, is a slug. */
  lemma SlugOfSlice(d: string, lo: nat, r: string)
    requires SliceAt(r, d, lo)
    requires forall i :: 0 <= i < |d| ==> IsSlugChar(d[i]) || d[i] == '-'
    requires SingleDashes(d)
    requires r == [] || (r[0] != '-' && r[|r| - 1] != '-')
    ensures IsSlug(r)
  {
    forall i | 0 <= i < |r| ensures IsSlugChar(r[i]) || r[i] == '-' {
      assert r[i] == d[lo + i];
    }
    forall i | 0 <= i < |r| - 1 ensures !DoubleDash(r, i) {
      assert r[i] == d[lo + i] && r[i + 1] == d[lo + i + 1];
      assert !DoubleDash(d, lo + i);
    }
  }

  /** A slug is left as it is by `Dashify`. */
  lemma {:induction false} DashifySlugChars(s: string)
    requires forall i :: 0 <= i < |s| ==> IsSlugChar(s[i]) || s[i] == '-'
    requires SingleDashes(s)
    ensures Dashify(s) == s
    decreases |s|
  {
    if s != [] {
      var t := s[1..];
      forall i | 0 <= i < |t| ensures IsSlugChar(t[i]) || t[i] == '-' {
        assert t[i] == s[i + 1];
      }
      SingleDashesTail(s);
      DashifySlugChars(t);
      if IsSlugChar(s[0]) {
        assert Dashify(s) == [s[0]] + Dashify(t);
      } else {
        if t != [] {
          assert !DoubleDash(s, 0);
          assert IsSlugChar(t[0]);
        }
        assert SkipNonSlug(t) == t;
        assert Dashify(s) == "-" + Dashify(t);
      }
      assert [s[0]] + t == s;
    }
  }

  /** Lower-casing leaves a slug unchanged. */
  lemma LowerSlug(s: string)
    requires forall i :: 0 <= i < |s| ==> IsSlugChar(s[i]) || s[i] == '-'
    ensures ToAsciiLower(s) == s
  {
    assert forall i :: 0 <= i < |s| ==> AsciiLower(s[i]) == s[i];
  }

  /** Slugs are exactly the fixed points of `Slugify`, so slugifying twice changes nothing. */
  lemma SlugifyIdempotent(base: string)
    ensures Slugify(Slugify(base)) == Slugify(base)
    ensures forall s :: IsSlug(s) ==> Slugify(s) == s
  {
    forall s | IsSlug(s) ensures Slugify(s) == s {
      LowerSlug(s);
      DashifySlugChars(s);
    }
  }

  /** `path.basename(pathname)`: the last `/`-separated piece, trailing slashes ignored. */
  function Basename(pathname: string): (r: string)
    ensures '/' !in r
  {
    var trimmed := TrimTrailingSlashes(pathname);
    var pieces := Split(trimmed, '/');
    pieces[|pieces| - 1]
  }

  function TrimTrailingSlashes(s: string): (r: string)
    ensures |r| <= |s|
  {
    if s != [] && s[|s| - 1] == '/' then TrimTrailingSlashes(s[..|s| - 1]) else s
  }

  /** `new URL(url).pathname`, or `None` when the URL does not parse. */
  type UrlPathname = string -> Option<string>

  /** The hexadecimal sha1 digest of a string. */
  type Sha1Hex = string -> string

  /** The first eight characters of the digest, `digest('hex').slice(0, 8)`. */
  function ShortHash(sha1: Sha1Hex, url: string): (h: string)
    ensures |h| <= 8
    ensures |sha1(url)| >= 8 ==> h == sha1(url)[..8]
  {
    var d := sha1(url);
    if |d| <= 8 then d else d[..8]
  }

  /** The file name the id is built from: the URL's base name without extension, or `video`. */
  function SourceBaseName(pathname: UrlPathname, url: string): (r: string)
    ensures r != []
  {
    var rawName := if pathname(url).Some? then Basename(pathname(url).value) else "video";
    var base := Trim(StripExtension(rawName));
    if base == "" then "video" else base
  }

  /** The last line of `buildDirectSourceId`: the slug, or `video` when it is empty, then the hash. */
  function SourceId(slug: string, hash: string): string {
    if slug != "" then slug + "-" + hash else "video-" + hash
  }

  /** `buildDirectSourceId`: the slug of the base name and a short hash of the whole URL. */
  function BuildDirectSourceId(pathname: UrlPathname, sha1: Sha1Hex, url: string): string {
    SourceId(Slugify(SourceBaseName(pathname, url)), ShortHash(sha1, url))
  }

  /** The fallback name is itself a slug. */
  lemma VideoIsSlug()
    ensures IsSlug("video")
  {
    var p := "video";
    forall i | 0 <= i < |p| ensures IsSlugChar(p[i]) {
      assert p[i] in "video";
    }
  }

  /**
   * The id is the slug of the base name, or `video` when that slug is empty, then `-` and the
   * short hash of the whole URL; the part before the hash is never empty and always a slug.
   */
  lemma DirectSourceIdShape(pathname: UrlPathname, sha1: Sha1Hex, url: string)
    ensures var slug := Slugify(SourceBaseName(pathname, url));
            var p := if slug != [] then slug else "video";
      && p != [] && IsSlug(p)
      && BuildDirectSourceId(pathname, sha1, url) == p + "-" + ShortHash(sha1, url)
  {
    SourceIdShape(Slugify(SourceBaseName(pathname, url)), ShortHash(sha1, url));
  }

  lemma SourceIdShape(slug: string, hash: string)
    requires IsSlug(slug)
    ensures var p := if slug != [] then slug else "video";
      p != [] && IsSlug(p) && SourceId(slug, hash) == p + "-" + hash
  {
    if slug == [] {
      VideoIsSlug();
      Seqs.AppendAssoc("video", "-", hash);
      assert "video" + "-" == "video-";
    }
  }

  /**
   * A dot followed by a non-empty run of letters and digits at the end is removed together with
   * the run, whatever comes before the dot.
   */
  lemma StripDotExtension(head: string, ext: string)
    requires head != [] && head[|head| - 1] == '.'
    requires ext != [] && forall i :: 0 <= i < |ext| ==> IsAsciiAlnum(ext[i])
    ensures StripExtension(head + ext) == head[..|head| - 1]
  {
    DotBeforeAlnumSuffix(head, ext);
    var n := head + ext;
    assert n[|n| - |ext| - 1] == head[|head| - 1];
    assert n[..|n| - |ext| - 1] == head[..|head| - 1];
  }

  /** A trailing run of letters and digits after a dot goes: `Intro.Talk.MP4` becomes `Intro.Talk`. */
  lemma StripExtensionOfDottedName()
    ensures StripExtension("Intro.Talk.MP4") == "Intro.Talk"
  {
    StripDotExtension("Intro.Talk.", "MP4");
    assert "Intro.Talk." + "MP4" == "Intro.Talk.MP4";
    assert "Intro.Talk."[..10] == "Intro.Talk";
  }

  /** A name without a dot keeps its letters; a bare extension leaves nothing. */
  lemma StripExtensionEdges()
    ensures StripExtension("clip") == "clip"
    ensures StripExtension(".mp4") == ""
    ensures StripExtension("archive.") == "archive."
  {
    AllAlnumSuffix("clip");
    StripDotExtension(".", "mp4");
    assert "." + "mp4" == ".mp4";
    assert AlnumSuffixLength("archive.") == 0;
  }

  /** A name made only of letters and digits is its own alphanumeric suffix. */
  lemma {:induction false} AllAlnumSuffix(s: string)
    requires forall i :: 0 <= i < |s| ==> IsAsciiAlnum(s[i])
    ensures AlnumSuffixLength(s) == |s|
    decreases |s|
  {
    if s != [] {
      var p := s[..|s| - 1];
      forall i | 0 <= i < |p| ensures IsAsciiAlnum(p[i]) {
        assert p[i] == s[i];
      }
      AllAlnumSuffix(p);
    }
  }

  /** Letters and digits after a dot: the suffix stops at the dot. */
  lemma {:induction false} DotBeforeAlnumSuffix(head: string, ext: string)
    requires head != [] && head[|head| - 1] == '.'
    requires forall i :: 0 <= i < |ext| ==> IsAsciiAlnum(ext[i])
    ensures AlnumSuffixLength(head + ext) == |ext|
    decreases |ext|
  {
    if ext == [] {
      assert head + ext == head;
    } else {
      var p := ext[..|ext| - 1];
      forall i | 0 <= i < |p| ensures IsAsciiAlnum(p[i]) {
        assert p[i] == ext[i];
      }
      DotBeforeAlnumSuffix(head, p);
      assert (head + ext)[..|head + ext| - 1] == head + p;
    }
  }

  // ---------------------------------------------------------------------------------------
  // resolveSlideSource

  /** `extracted.video`: the media the content extractor found, if any. */
  datatype VideoRef = VideoRef(kind: string, url: string)

  /** The parts of `ExtractedLinkContent` the resolver reads. */
  datatype ExtractedLink = ExtractedLink(url: string, video: Option<VideoRef>)

  /** `extractYouTubeVideoId`: `None` stands for `null`. */
  type VideoIdExtractor = string -> Option<string>

  /** The URL tests `isDirectMediaUrl` and `isYouTubeUrl`. */
  type UrlTest = string -> bool

  /** The foreign helpers the resolver calls. */
  datatype SourceOracles = SourceOracles(
    videoId: VideoIdExtractor, isDirectMediaUrl: UrlTest, isYouTubeUrl: UrlTest, pathname: UrlPathname, sha1: Sha1Hex)

  function WatchUrl(id: string): string {
    "https://www.youtube.com/watch?v=" + id
  }

  /** `a ?? b`. */
  function OrElse(a: Option<string>, b: Option<string>): (r: Option<string>)
    ensures a.Some? ==> r == a
    ensures a.None? ==> r == b
  {
    if a.Some? then a else b
  }

  /** `extracted.video?.url ?? extracted.url`. */
  function DirectUrl(extracted: ExtractedLink): string {
    if extracted.video.Some? then extracted.video.value.url else extracted.url
  }

  /** The first id the extractor does not answer `null` for: video URL, page URL, then the input URL. */
  function YouTubeCandidate(o: SourceOracles, url: string, extracted: ExtractedLink): Option<string> {
    var videoUrl := if extracted.video.Some? then extracted.video.value.url else "";
    OrElse(o.videoId(videoUrl), OrElse(o.videoId(extracted.url), o.videoId(url)))
  }

  /** A string is truthy when it is not empty. */
  predicate Truthy(s: Option<string>) {
    s.Some? && s.value != ""
  }

  predicate IsDirectSource(o: SourceOracles, url: string, extracted: ExtractedLink) {
    || (extracted.video.Some? && extracted.video.value.kind == "direct")
    || o.isDirectMediaUrl(DirectUrl(extracted))
    || o.isDirectMediaUrl(url)
  }

  /** The last branch: a YouTube page whose id the extractor finds. */
  predicate FallbackApplies(o: SourceOracles, url: string, extracted: ExtractedLink) {
    && !Truthy(YouTubeCandidate(o, url, extracted))
    && !IsDirectSource(o, url, extracted)
    && o.isYouTubeUrl(url)
    && Truthy(o.videoId(url))
  }

  /**
   * `resolveSlideSource`: a YouTube id found by the extractor wins; otherwise a direct media
   * URL gets a slug id; otherwise a YouTube page with an id; otherwise nothing.
   */
  function ResolveSlideSource(o: SourceOracles, url: string, extracted: ExtractedLink): (r: Option<SlideSource>)
    ensures Truthy(YouTubeCandidate(o, url, extracted)) ==>
              r == Some(SlideSource(WatchUrl(YouTubeCandidate(o, url, extracted).value), YouTube,
                                    YouTubeCandidate(o, url, extracted).value))
    ensures !Truthy(YouTubeCandidate(o, url, extracted)) && IsDirectSource(o, url, extracted) ==>
              var normalized := if DirectUrl(extracted) != "" then DirectUrl(extracted) else url;
              r == Some(SlideSource(normalized, Direct, BuildDirectSourceId(o.pathname, o.sha1, normalized)))
    ensures r.Some? && r.value.kind == YouTube ==> r.value.sourceId != "" && r.value.url == WatchUrl(r.value.sourceId)
    ensures r.None? <==> !Truthy(YouTubeCandidate(o, url, extracted)) && !IsDirectSource(o, url, extracted)
                         && !FallbackApplies(o, url, extracted)
  {
    var directUrl := DirectUrl(extracted);
    var candidate := YouTubeCandidate(o, url, extracted);
    if Truthy(candidate) then Some(SlideSource(WatchUrl(candidate.value), YouTube, candidate.value))
    else if IsDirectSource(o, url, extracted) then
      var normalized := if directUrl != "" then directUrl else url;
      Some(SlideSource(normalized, Direct, BuildDirectSourceId(o.pathname, o.sha1, normalized)))
    else if o.isYouTubeUrl(url) && Truthy(o.videoId(url)) then
      Some(SlideSource(WatchUrl(o.videoId(url).value), YouTube, o.videoId(url).value))
    else None
  }

  /**
   * The last branch never returns as long as the extractor never answers an empty id: the
   * input URL's own id would already have been the candidate.
   */
  lemma FallbackUnreachable(o: SourceOracles, url: string, extracted: ExtractedLink)
    requires forall s :: o.videoId(s) != Some("")
    ensures !FallbackApplies(o, url, extracted)
  {
    var videoUrl := if extracted.video.Some? then extracted.video.value.url else "";
    assert o.videoId(videoUrl) != Some("") && o.videoId(extracted.url) != Some("") && o.videoId(url) != Some("");
  }

  /**
   * Only an empty id makes the branch live: with no video and an extractor answering `""` for
   * the page URL, the input URL's id is found by the last branch.
   */
  lemma FallbackNeedsEmptyId()
    ensures var o := SourceOracles(s => if s == "page" then Some("") else if s == "watch" then Some("abc") else None,
                                   _ => false, s => s == "watch", _ => None, _ => "");
      && FallbackApplies(o, "watch", ExtractedLink("page", None))
      && ResolveSlideSource(o, "watch", ExtractedLink("page", None)) == Some(SlideSource(WatchUrl("abc"), YouTube, "abc"))
  {
  }
}
