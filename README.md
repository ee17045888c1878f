# NEON EXTRACTOR download decision, in Dafny

`app.py` is a single Streamlit page. The user pastes a video URL. The page
decides where the bytes come from and what the download is called:

- **Routing.** A URL in which `.mp4` occurs anywhere is a *direct* link and
  is fetched as it is. Any other URL is a *platform* page and goes to
  `yt_dlp` first.
- **Direct path.** The file name is `url.split('/')[-1]`. The preview URL is
  the pasted URL.
- **Platform path.** The preview and fetch URL is the extractor's `url`. The
  file name is `f"{info.get('title', 'video')}.mp4"`.
- **Headers.** The `headers` argument of every body request is one fixed map
  with a User-Agent and a constant Referer.

The project has two modules:

- `PyStrings` (strings.dfy) models the Python string operations used:
  - `pat in s` as `Contains`, proved equal to a reference "occurs at some
    position" predicate;
  - `s.split(sep)` as `Split`, with its inverse `Join` and both round trips.
- `App` (app.py's logic, app.dfy) has the routing `Plan`, the header constant,
  the extractor's result as a value (`Info`), and the decision `Resolve`.
  `Resolve` takes the extractor as a function parameter. Its `Outcome` says
  which request is issued, which URL is previewed and which file name is
  used. `Ready` means the body request is issued; whether it succeeds is
  not modelled.

The extractor's answer for a page is `None` when `extract_info` raises;
otherwise it gives the `title` and `url` keys. The model keeps apart a missing
title (`video.mp4`), a null title (`None.mp4`, from Python's f-string) and a
string title. A result without `url` gives `Failed(NoStreamUrl)`: the page
then calls `requests.get(None)`, which raises before any network access.

The page runs the decision only for a non-empty input (app.py:87), so
`Resolve` requires a non-empty URL.

Facts about the page that the model keeps:
- The routing test looks only for `.mp4`. No other media extension is checked.
- Names never come from a query parameter.
- There is no timestamped fallback name.
- The User-Agent is one constant string.
- The Referer is the constant `https://f2-movie.po-kaki-to.com/`, whatever
  the target. No Origin header is sent.

`QueryStaysInName` shows the consequence for a URL like
`https://cdn.example/movie.php?name=28651-1.mp4`. Its name is
`movie.php?name=28651-1.mp4`, not `28651-1.mp4`.

## Model

| member | source | states |
|---|---|---|
| PyStrings.ContainsIffOccurs | app.py:99 | `Contains`, a scan that answers `".mp4" in target_url`, is true exactly when the pattern occurs at some position of the string (both directions) |
| PyStrings.ContainsInfix | app.py:99 | The pattern is found wherever it is placed, at the front, in the middle or at the end of the string |
| PyStrings.Split | app.py:101 | `split('/')` yields at least one piece, no piece holds the separator, and joining the pieces with the separator gives back the input |
| PyStrings.SplitJoin | app.py:101 | Splitting the join of separator-free pieces gives back exactly those pieces, the inverse round trip |
| App.LastSegment | app.py:101 | `split('/')[-1]` is slash-free, is a suffix of the URL, and is either the whole URL or preceded by a `/` |
| App.LastSegmentUnique | app.py:101 | Those three properties determine the last segment uniquely |
| App.NoSlashWholeName | app.py:101 | A URL without `/` is its own file name |
| App.LastSegmentAfterSlash | app.py:101 | For any prefix, the text after a final `/` is the file name |
| App.Route | app.py:99-103 | A URL is routed direct if and only if `.mp4` occurs in it; a direct plan has source equal to the URL and name equal to its last segment; a platform plan carries the URL unchanged |
| App.Mp4AnywhereRoutesDirect | app.py:99 | A URL with `.mp4` at any position, inside a query value too, routes direct |
| App.DirectNameShape | app.py:101 | A direct-path name holds no `/`; a URL ending in `/` gives the empty name |
| App.QueryStaysInName | app.py:99-101 | For `<front>/<stem>.mp4` with a slash-free stem, the plan is direct, with the URL as source and `<stem>.mp4` as name, query string included |
| App.PlatformDownload | app.py:107-109 | The platform path issues the body request exactly when the extractor gave a `url`, and fails with `NoStreamUrl` when it did not; then that URL is previewed and requested with the fixed headers, and the name is the title text (`TitleText`, the `info.get('title', 'video')` lookup) followed by `.mp4` |
| App.PlatformNameEndsInMp4 | app.py:108 | Every platform-path name ends in `.mp4`; with the title key missing it is `video.mp4`, with a null title `None.mp4`, and with a string title that string followed by `.mp4` |
| App.Resolve | app.py:87-109 | For a non-empty pasted URL: a URL containing `.mp4` issues the body request for the URL itself, previewed under its last segment; any other URL's outcome is decided by the extractor's answer for that URL (failure, or the platform download); every request goes to the previewed URL with the fixed headers |
| App.DirectIgnoresExtractor | app.py:99-106 | For a direct URL, the outcome is the same whatever the extractor would answer: it is never consulted |
| App.PlatformDependsOnlyOnOwnAnswer | app.py:104-109 | For a platform URL, only the extractor's answer for that same URL matters |
| App.HeadersFixed | app.py:93-96 | The `headers` argument of every request is exactly the map with keys User-Agent and Referer, and the Referer is the constant `https://f2-movie.po-kaki-to.com/` for every target |

## Left out

- Page styling, layout, header, text input, spinner, video preview, download button, success and error messages (app.py:1-90, 111-136): user interface only.
- The body fetches `requests.get(...).content` (app.py:100, 109): network I/O. The model records the request (URL and headers) and not the bytes. Every exception `requests.get` raises for a string URL is left out, including its local rejections before any network access (a URL without scheme or host, such as `clip.mp4` or an empty extractor `url`, raises MissingSchema or InvalidURL). So `Ready` means that the request is issued, not that a download is offered. The session defaults that `requests` adds to the `headers` argument (Accept, Accept-Encoding, Connection) are not modelled.
- `yt_dlp.YoutubeDL({...}).extract_info` (app.py:105-106): a foreign library. It is a function parameter that returns the `title` and `url` fields, or `None` when it raises. Its options (`format: best`, `quiet`) have no modelled effect.
- The `except Exception` handler (app.py:128-130): it only renders a message. Two of its cases are modelled as `Failed`: the extractor raised, or the result lacked `url` (so `requests.get(None)` raised). The HTTP client's rejections of a string URL are left out, as the previous line says.
- A non-string, non-null title (a number, say) would be rendered by `str()`. Titles are modelled as missing, null or a string.
- Python strings are sequences of code points; the model uses Dafny `char`. No encoding is involved in the modelled operations.
