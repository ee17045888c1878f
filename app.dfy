/**
  The download decision of the NEON EXTRACTOR page (app.py): given the pasted
  URL it decides whether the URL is a direct media link or a platform page
  that goes through the extractor, which URL is previewed and fetched, with
  which request headers, and the file name the page would offer.

  The extractor (`yt_dlp.YoutubeDL.extract_info`) is a parameter: a function
  from the page URL to the fields the page reads from its result, or `None`
  when it raises. Fetching the bytes is not modelled; the outcome records the
  request that would be sent.
 */
module App {
  import opened PyStrings

  datatype Option<T> = None | Some(value: T)

  /** The marker whose presence anywhere in the URL makes it a direct link. */
  const Mp4: string := ".mp4"

  const UserAgent: string := "Mozilla/5.0 (Windows NT 10.0; Win64; x64) AppleWebKit/537.36 (KHTML, like Gecko) Chrome/91.0.4472.124 Safari/537.36"
  const Referer: string := "https://f2-movie.po-kaki-to.com/"

  /** The one header map sent with every fetch, whatever the target. */
  const Headers: map<string, string> := map["User-Agent" := UserAgent, "Referer" := Referer]

  /** The extractor result's `title` key: missing, present but null, or a string. */
  datatype TitleField = Missing | Null | Title(text: string)

  /** The two keys of the extractor's result the page reads. */
  datatype Info = Info(title: TitleField, url: Option<string>)

  /** Where the URL is sent: straight to the fetch, or to the extractor first. */
  datatype Plan = Direct(src: string, name: string) | Platform(page: string)

  datatype Request = Request(url: string, headers: map<string, string>)

  /**
    The body request the page issues, with the preview URL and the file name
    it uses once that request returns. Whether the request itself succeeds
    (or is rejected locally by the HTTP client) is not modelled.
   */
  datatype Download = Download(fetch: Request, preview: string, name: string)

  datatype Failure =
    | ExtractionFailed  // extract_info raised
    | NoStreamUrl       // the result has no `url`, so the body request gets None and raises

  datatype Outcome = Ready(download: Download) | Failed(reason: Failure)

  /**
    `target_url.split('/')[-1]`: the text after the last `/`, or the whole
    URL when it has none. It is the longest slash-free suffix of the URL.
   */
  function LastSegment(url: string): (r: string)
    ensures '/' !in r
    ensures |r| <= |url| && url[|url| - |r|..] == r
    ensures |r| < |url| ==> url[|url| - |r| - 1] == '/'
  {
    var parts := Split(url, '/');
    var r := parts[|parts| - 1];
    assert '/' !in r;
    if |parts| == 1 then
      r
    else
      JoinLast(parts, '/');
      var front := Join(parts[..|parts| - 1], '/');
      assert url == front + ['/'] + r;
      assert url[|url| - |r|..] == r;
      assert url[|url| - |r| - 1] == '/';
      r
  }

  /** The routing test: a direct link is any URL in which `.mp4` occurs, at any position. */
  function Route(url: string): (p: Plan)
    ensures p.Direct? <==> Occurs(url, Mp4)
    ensures p.Direct? ==> p.src == url && p.name == LastSegment(url)
    ensures p.Platform? ==> p.page == url
  {
    ContainsIffOccurs(url, Mp4);
    if Contains(url, Mp4) then Direct(url, LastSegment(url)) else Platform(url)
  }

  /** The file name on the platform path: `f"{info.get('title', 'video')}.mp4"`. */
  function TitleText(t: TitleField): string {
    match t
    case Missing => "video"
    case Null => "None"
    case Title(text) => text
  }

  /** The platform path once the extractor has answered. */
  function PlatformDownload(info: Info): (r: Outcome)
    ensures r.Ready? <==> info.url.Some?
    ensures info.url.None? ==> r == Failed(NoStreamUrl)
    ensures r.Ready? ==>
              && r.download.preview == info.url.value
              && r.download.fetch == Request(info.url.value, Headers)
              && r.download.name == TitleText(info.title) + Mp4
  {
    match info.url
    case None => Failed(NoStreamUrl)
    case Some(src) => Ready(Download(Request(src, Headers), src, TitleText(info.title) + Mp4))
  }

  /**
    The whole decision for one pasted URL. The page skips an empty input box
    altogether, so the URL is never empty. `Ready` means the body request is
    issued; its answer is not modelled.
   */
  function Resolve(url: string, extract: string -> Option<Info>): (r: Outcome)
    requires url != ""
    ensures Occurs(url, Mp4) ==>
              && r.Ready?
              && r.download.preview == url
              && r.download.name == LastSegment(url)
    ensures !Occurs(url, Mp4) ==>
      r == (match extract(url)
            case None => Failed(ExtractionFailed)
            case Some(info) => PlatformDownload(info))
    ensures r.Ready? ==> r.download.fetch == Request(r.download.preview, Headers)
  {
    match Route(url)
    case Direct(src, name) => Ready(Download(Request(src, Headers), src, name))
    case Platform(page) =>
      match extract(page)
      case None => Failed(ExtractionFailed)
      case Some(info) => PlatformDownload(info)
  }

  // ---- Properties of the decision ----

  /** A `.mp4` anywhere in the URL, even inside a query value, routes it direct. */
  lemma Mp4AnywhereRoutesDirect(before: string, after: string)
    ensures Route(before + Mp4 + after).Direct?
  {
    ContainsInfix(before, Mp4, after);
    ContainsIffOccurs(before + Mp4 + after, Mp4);
  }

  /** A direct URL never reaches the extractor: any two extractors give the same outcome. */
  lemma DirectIgnoresExtractor(url: string, e1: string -> Option<Info>, e2: string -> Option<Info>)
    requires url != ""
    requires Route(url).Direct?
    ensures Resolve(url, e1) == Resolve(url, e2)
  {
  }

  /** A platform URL is handed to the extractor unchanged, and only its answer for that URL matters. */
  lemma PlatformDependsOnlyOnOwnAnswer(url: string, e1: string -> Option<Info>, e2: string -> Option<Info>)
    requires url != ""
    requires Route(url).Platform?
    requires e1(url) == e2(url)
    ensures Resolve(url, e1) == Resolve(url, e2)
  {
  }

  /** A direct-path file name holds no `/`; a URL ending in `/` gives the empty name. */
  lemma DirectNameShape(url: string)
    requires Route(url).Direct?
    ensures '/' !in Route(url).name
    ensures |url| > 0 && url[|url| - 1] == '/' ==> Route(url).name == ""
  {
  }

  /** With no `/` in the URL the whole URL is the name. */
  lemma NoSlashWholeName(url: string)
    requires '/' !in url
    ensures LastSegment(url) == url
  {
  }

  /** The last segment is determined by the three properties LastSegment promises. */
  lemma LastSegmentUnique(url: string, r: string)
    requires '/' !in r
    requires |r| <= |url| && url[|url| - |r|..] == r
    requires |r| < |url| ==> url[|url| - |r| - 1] == '/'
    ensures LastSegment(url) == r
  {
  }

  /** The segment after a final `/` is the name, whatever comes before it. */
  lemma LastSegmentAfterSlash(front: string, name: string)
    requires '/' !in name
    ensures LastSegment(front + "/" + name) == name
  {
    var url := front + "/" + name;
    assert url[|url| - |name|..] == name;
    assert url[|url| - |name| - 1] == '/';
    LastSegmentUnique(url, name);
  }

  /**
    Every platform-path file name ends in `.mp4`. A missing title gives
    `video.mp4`, a null title `None.mp4`, and a string title itself plus `.mp4`.
   */
  lemma PlatformNameEndsInMp4(info: Info)
    requires info.url.Some?
    ensures var n := PlatformDownload(info).download.name;
      |n| >= |Mp4| && n[|n| - |Mp4|..] == Mp4
    ensures info.title == Missing ==> PlatformDownload(info).download.name == "video.mp4"
    ensures info.title == Null ==> PlatformDownload(info).download.name == "None.mp4"
    ensures info.title.Title? ==> PlatformDownload(info).download.name == info.title.text + Mp4
  {
  }

  /** The `headers` argument of every request is the same two-entry map; the Referer is a constant, not the target's site. */
  lemma HeadersFixed(url: string, extract: string -> Option<Info>)
    requires url != ""
    requires Resolve(url, extract).Ready?
    ensures Resolve(url, extract).download.fetch.headers.Keys == {"User-Agent", "Referer"}
    ensures Resolve(url, extract).download.fetch.headers["Referer"] == "https://f2-movie.po-kaki-to.com/"
  {
  }

  /**
    A URL such as `https://cdn.example/movie.php?name=28651-1.mp4` routes
    direct, and its name is everything after the last `/`, query string
    included (`movie.php?name=28651-1.mp4`), not the value of `name`.
   */
  lemma QueryStaysInName(front: string, stem: string)
    requires '/' !in stem
    ensures Route(front + "/" + stem + Mp4)
      == Direct(front + "/" + stem + Mp4, stem + Mp4)
  {
    Mp4AnywhereRoutesDirect(front + "/" + stem, "");
    assert front + "/" + stem + Mp4 + "" == front + "/" + stem + Mp4;
    assert front + "/" + stem + Mp4 == front + "/" + (stem + Mp4);
    LastSegmentAfterSlash(front, stem + Mp4);
  }
}
