# PagePile visual filter — a Dafny model of its core

The tool shows the image files of a *page pile* (a list of wiki page titles stored
by the PagePile service) as thumbnails and lets the user submit a subset as a new
pile. This project models the parts of it that are rules rather than plumbing:

- **CSRF guard** (`Csrf`): `csrf_token` issues a 64-character token over ASCII
  letters and digits only when the session holds none, and otherwise returns the
  stored one; `submitted_request_valid` accepts a POST only when a non-empty token is
  stored and the first submitted `csrf_token` field equals it. The token is
  persistent: nothing invalidates it after use and no referer is checked.
  The session is a class over a `map<string, string>`; `random.choice` is a
  nondeterministic pick from the alphabet.
- **Form helpers** (`Forms`): form data and query arguments as the ordered list of
  submitted (name, value) pairs, with `get`, `getlist` and `in`; the template
  helpers `form_value` and `form_attributes`, with `Markup.escape` a parameter.
- **Pile URLs** (`PagepileUrls`): `pagepile_url`, with `%d` written out as decimal
  formatting and proved to read back.
- **Batched file-info lookup** (`FileLookup`): `load_files` seeds every title with
  "no info", splits the titles into chunks of 50, and stores the first `imageinfo`
  entry of every returned page under that page's title. A page that is missing
  `title` or `imageinfo`, or whose `imageinfo` is empty, raises a `LookupError` that
  is swallowed, so it changes nothing. The wiki API is a function from a chunk to
  the responses that continuation yields for it. The method keeps the source's three
  nested loops and is proved equal to a fold over all returned pages. Lemmas then
  characterise that fold.
- **Handlers** (`Handlers`): the decisions of `pagepile_redirect`, `pagepile` and
  `filter_pagepile` as functions returning the response they choose, over the
  PagePile service (`load_pagepile`, `create_pagepile`) and the wiki API given as
  functions.
- **Response hardening** (`Hardening`): `deny_frame` sets `X-Frame-Options: deny` in
  place and leaves status, body and every other header unchanged.
- **Image-reload throttle** (`ReloadImages`): the error listener of
  `static/reload-images.js` as a class over `earliestNextReload`, with a ghost
  history of error times. Times are integer milliseconds.
- **Open in new tab** (`OpenImages`): the click condition of
  `static/open-images.js` and the description-page URL it opens, with
  `encodeURIComponent` a parameter.

Some behaviour of the code that a reader might not expect, and that the model keeps:

- `load_files` stores a page under the title the API returns. If the API returns
  a title that was not in the input, such as a normalised form of it, the result
  gets an extra key and the input title keeps "no info". So the result may have
  more keys than the input titles (`FileLookup.LoadedFilesKeys`).
- `filter_pagepile` creates the new pile on the original pile's domain, not on a
  fixed one.
- `filter_pagepile` does not check that the kept titles belong to the original pile.
  It only compares their number with the original's.
- The reload spacing holds whatever the order of the error times. It does not
  need `now` to be non-decreasing (`ReloadImages.ReloadTimesSpaced`).

## Model

| member | source | states |
|---|---|---|
| `Forms.FormGet` | app.py:151 | `form.get(name)` is none exactly when no pair has that name; otherwise it is the value of the first pair with that name |
| `Forms.FormGetList` | app.py:111 | `form.getlist(name)` contains a value exactly when the pair (name, value) was submitted |
| `Forms.FormGetListSingle` | app.py:111 | one submitted pair contributes its value to `getlist` exactly when its name matches |
| `Forms.FormGetListAppend` | app.py:111 | `getlist` keeps the order and the number of submitted values: on two runs of pairs it returns the first run's values followed by the second's |
| `Forms.FormGetIsFirstOfList` | app.py:111 | `get` returns the head of `getlist`, and none exactly when `getlist` is empty |
| `Forms.FormValue` | app.py:40-47 | empty unless the repeat-form flag is set and the field was submitted (`HasField`, `name in flask.request.form`); otherwise ` value="` + the escaped first submitted value + `" ` |
| `Forms.FormAttributes` | app.py:50-57 | ` id="<escaped name>" name="<escaped name>" ` followed exactly by `form_value(name)` |
| `Csrf.TokenCharactersAlphanumeric` | app.py:34 | the token alphabet has 62 characters and contains exactly the ASCII letters and digits |
| `Csrf.GeneratedTokenShape` | app.py:34-35 | a generated token is non-empty and made only of ASCII letters and digits |
| `Csrf.RandomToken` | app.py:34-35 | the generated string has length 64 and every character is from the alphabet |
| `Csrf.SubmittedRequestValid` | app.py:143-161 | valid exactly when a non-empty token is stored and the first submitted `csrf_token` equals it; being a function of the session, it changes nothing |
| `Csrf.GeneratedTokenValidates` | app.py:150-161 | submitting a stored generated token unchanged passes the check |
| `Csrf.Session.CsrfToken` | app.py:32-37 | with a stored token: returns it and leaves the session unchanged; without one: stores a generated token under `csrf_token`, changes no other key, and returns it |
| `Csrf.Session.CsrfTokenIdempotent` | app.py:33-37 | two consecutive reads return the same token; the second read leaves the session as the first left it |
| `Csrf.Session.IssueThenValidate` | app.py:150-161 | a token just issued and then submitted validates; the session is unchanged if it already held a token |
| `PagepileUrls.NatToDecimal` | app.py:63 | decimal digits only, non-empty, no leading zero |
| `PagepileUrls.DecimalRoundTrip` | app.py:63 | reading back the decimal digits of `n` gives `n` |
| `PagepileUrls.FormatInt` | app.py:63 | `'%d' % id` is non-empty and starts with `-` exactly when the id is negative |
| `PagepileUrls.FormatIntRoundTrip` | app.py:63 | `%d` of any int reads back to that int, including negative ones |
| `PagepileUrls.PagepileUrl` | app.py:60-63 | the URL is the fixed API prefix, then `%d` of the id, then `&format=html` |
| `PagepileUrls.PagepileUrlInjective` | app.py:60-63 | two ids give the same URL exactly when they are equal |
| `FileLookup.ChunkCount` | app.py:121 | the slice comprehension (`Chunks`) gives ceil(n/50) chunks, and none exactly when there are no titles |
| `FileLookup.ChunkSizes` | app.py:121 | every chunk has 1 to 50 titles, and all but the last have exactly 50 |
| `FileLookup.ChunksPrefix` | app.py:121 | the first k chunks concatenate to the first min(50k, n) titles |
| `FileLookup.ChunksConcatenate` | app.py:121 | the chunks concatenate back to the titles, in order |
| `FileLookup.SeedFiles` | app.py:120 | `dict.fromkeys(titles)` has exactly the titles as keys, each with "no info" |
| `FileLookup.StoreAllAppend` | app.py:121-134 | storing two runs of pages one after the other is the same as storing their concatenation |
| `FileLookup.LoadFiles` | app.py:118-135 | the nested loops over chunks, responses and pages return exactly the fold of all returned pages over the seeded map |
| `FileLookup.StoreAllKeys` | app.py:130-134 | after storing, a title is a key exactly when it was one before or some page with that title has a non-empty `imageinfo` |
| `FileLookup.StoreAllUntouched` | app.py:131-134 | a title for which no page has a non-empty `imageinfo` keeps its value: the `try` body (`Store`) changes nothing for pages that raise `LookupError` |
| `FileLookup.StoreAllLastWins` | app.py:132 | a title's value is the first `imageinfo` entry of the last page with that title |
| `FileLookup.StoreAllProvenance` | app.py:132 | any info found after storing was there before or was the first `imageinfo` entry of some page with that title |
| `FileLookup.LoadedFilesCoverTitles` | app.py:120 | every input title is a key of the result, which `load_files` builds from the pages of every response, read as `response.get('query', {}).get('pages', [])` (`PagesOf`) |
| `FileLookup.LoadedFilesKeys` | app.py:120-134 | the result's keys are the input titles plus the titles of returned pages that have image info |
| `FileLookup.LoadedFilesInfoFromPage` | app.py:130-134 | a title has info only if some returned page with that title has a non-empty `imageinfo`, and the info is that list's first element |
| `FileLookup.LoadedFilesNoInfo` | app.py:120-134 | an input title without such a page maps to "no info" |
| `FileLookup.LoadedFilesLastPageWins` | app.py:130-134 | when several returned pages carry info for a title, the last one's first entry is the result |
| `FileLookup.LoadedFilesEmpty` | app.py:120-121 | no titles give an empty result |
| `Handlers.PagepileRedirect` | app.py:75-80 | redirects to the index exactly when `page_pile_id` is missing or empty; otherwise to the view named by that raw string (integer conversion by `url_for` is not modelled) |
| `Handlers.Pagepile` | app.py:83-98 | 404 exactly when the pile is missing; 400 exactly when it exists on a domain other than `commons.wikimedia.org`; otherwise 200 with `load_files` of the pile's titles |
| `Handlers.PagepileSkipsLookupOnError` | app.py:85-94 | the 404 and 400 pages do not depend on the wiki API: `load_files` is not reached |
| `Handlers.FilterPagepile` | app.py:101-115 | 400 exactly when the CSRF check fails; 404 exactly when it passes and the pile is missing; "no changes" (200) exactly when the kept list is empty or not shorter than the original; otherwise a redirect to the URL of the pile created from the kept titles on the original domain |
| `Handlers.FilterChecksCsrfFirst` | app.py:103-106 | a request failing the CSRF check gets 400, whatever the PagePile service would do: nothing is loaded or created |
| `Handlers.FilterCreatesOnlyForSmallerSelection` | app.py:111-114 | every response except the redirect is the same whatever `create_pagepile` does: a pile is created only for a strictly smaller non-empty selection |
| `Handlers.FilterRedirectNamesNewPile` | app.py:114-115 | two redirects have the same location exactly when the new pile ids are equal |
| `Hardening.WithFrameDenied` | app.py:171 | `X-Frame-Options` is `deny`; the set of headers gains only that name; every other header keeps its value |
| `Hardening.WithFrameDeniedIdempotent` | app.py:171 | applying the hook twice is the same as once |
| `Hardening.HttpResponse.DenyFrame` | app.py:164-172 | sets the header in place, leaves status and body unchanged, and returns the same response object |
| `ReloadImages.NextReload` | static/reload-images.js:27 | the new timestamp is at least 100 past the old one and at least 100 past now, and equals one of the two |
| `ReloadImages.EarliestAfterSpacing` | static/reload-images.js:22-27 | after k errors, the timestamp is at least 100 per error above what it was after j ≤ k errors |
| `ReloadImages.ReloadTimesSpaced` | static/reload-images.js:12-14 | the reload times of errors j < k are at least 100·(k−j) ms apart, for any error times |
| `ReloadImages.ReloadsFitQueue` | static/reload-images.js:7-11 | any 4-second window holds at most 40 reloads, fewer than the 50 the thumbnail server queues |
| `ReloadImages.ReloadThrottle.constructor` | static/reload-images.js:22 | the timestamp starts at 0, with no errors handled |
| `ReloadImages.ReloadThrottle.OnError` | static/reload-images.js:25-30 | the timestamp becomes max(old, now) + 100; the delay is at least 100 and reaches exactly the new timestamp; the delay is exactly 100 when now is past the old timestamp; the history records the error |
| `OpenImages.OpensNewTab` | static/open-images.js:6-9 | acts for button 1 whatever the modifier keys; for button 0 exactly when Ctrl or Meta is held; never for other buttons |
| `OpenImages.UnderscoreSpaces` | static/open-images.js:13 | same length as the title, no spaces, and every other character kept |
| `OpenImages.UnderscoreSpacesSame` | static/open-images.js:13 | two titles give the same string exactly when they differ only by spaces versus underscores |
| `OpenImages.FilePageUrl` | static/open-images.js:12-13 | starts with `https://commons.wikimedia.org/wiki/`, followed by the encoded title with spaces replaced |
| `OpenImages.FilePageUrlSame` | static/open-images.js:12-13 | with an injective encoding, two titles open the same URL exactly when they agree after replacing spaces |
| `OpenImages.OnClick` | static/open-images.js:5-17 | a tab is opened exactly when the click condition holds, with the file page URL; `preventDefault` is called exactly when a tab is opened |

## Left out

- Flask routing, `render_template`, `url_for`, redirects as HTTP, the session cookie and `flask.g`. The handlers' decisions and the data they pass to templates are modelled; the templates are not part of this model.
- `index()` only renders a template, so it is not modelled.
- The `repeat_form` flag in `flask.g` is a parameter. The source never sets it in app.py.
- `mwapi.Session` HTTP, continuation paging, user agent and `anonymous_session`. The wiki API is a function from a chunk to its responses. Transport errors, which abort a request, are not modelled.
- `load_pagepile` and `create_pagepile` are functions given as parameters. The `pagepile` module is not part of this model.
- Handlers.PagepileRedirect: `url_for('pagepile', id=id)` builds against the `<int:id>` route, so Werkzeug converts the id with `int()`. A non-integer `page_pile_id` such as `abc` then fails with a server error, and `007` becomes the view of pile 7. The model returns the view of the raw string and does not capture that error path or that normalisation.
- Loading config, the secret and the user agent (app.py:16-28) is I/O.
- The randomness of `random.choice` is a nondeterministic choice. Its distribution and strength are not modelled.
- `Markup.escape` and `encodeURIComponent` are uninterpreted function parameters.
- `full_url` (app.py:138-140) has no caller in app.py, so it is not modelled.
- Session values other than strings are not modelled: the session is a `map<string, string>`.
- `Hardening.WithFrameDenied`: Werkzeug matches header names case-insensitively and allows repeated headers. The model keys headers by exact name with one value each.
- DOM querying, event registration, `setTimeout`, `window.open`, the reload itself and the explanatory paragraph are browser side effects, so they are not modelled.
- `ReloadImages.ReloadThrottle.OnError`: `performance.now()` is a floating-point number of milliseconds. The model uses integer milliseconds.
- `FileLookup.LoadFiles`: Python dict insertion order is not modelled. The result is a map.
