# fowl: request building and response decoding, in Dafny

`fowl` is an unofficial Python client for Twitter's internal web API. Its
library module, `fowl/__init__.py`, bootstraps anonymous credentials by
scraping the web app (the app script URL, the page metadata and the `gt`
guest-token cookie from the HTML shell, then a 104-character bearer token
from the app script), builds the two GraphQL requests it issues
(`UserByScreenName` and `UserTweets`), and decodes their responses: the
user node, and a page of timeline entries with its top and bottom
pagination cursors.

This project models the pure parts of that module and proves what they
promise:

- `Json` (json.dfy): decoded JSON values, the Python exceptions the code
  can raise (`PyError`), and the Python operations it uses on JSON: `v[key]`,
  slicing `[-2:]` / `[:-2]`, iterating and truthiness.
- `Patterns` (patterns.dfy): the three module-level regular expressions as
  predicates saying where they match (`AuthTokenAt`, `MetadataAt`,
  `GuestCookieAt`), and `re.search` on each: leftmost start, then the
  shortest `.+?` run (`.` excludes a newline).
- `GraphQl` (graphql.dfy): `TwitterGraphQl._to_http_params`,
  `user_by_username` and `tweets`. `json.dumps` is a parameter `dumps`.
  `tweets` is a method because the source adds the cursor to its variables
  dict in place.
- `Http` (http.dfy): `_build_headers` and `_validate_status`.
- `Bootstrap` (bootstrap.dfy): `_parse_app_data` as a method whose loop
  reassigns the three accumulators, proved equal to a fold over the script
  elements; and `_parse_auth_token`. The HTML parser's output is a sequence
  of `Script(src, text)` records. `json.loads` of the metadata is a parameter
  returning `None` where it raises. The cookie step (`SimpleCookie.load`
  of the group, then `.get("gt").value`) is a parameter returning `None`
  where any part of it fails: a `CookieError` from `load`, or a missing
  `gt` whose `.value` raises. Every cookie failure is reported as
  `AttributeError`.
- `Timeline` (timeline.dfy): `_parse_user`, `_parse_tweet_cursor`, and
  `_parse_tweets` as a method whose loop reassigns `entries` and `cursors`,
  proved equal to a fold over the instructions.
- `Sequences` (sequences.dfy): `LastWhere`, the index of the last element
  satisfying a predicate. The "last match wins" lemmas are stated with it.
- `Wrappers` (wrappers.dfy): `Option` and `Result`.

Every Python exception becomes `Err(...)` of the matching `PyError`. The
decoders are modelled on every input, not only well-formed ones. A missing
key is a `KeyError`. Subscripting a non-dict is a `TypeError`. `_parse_tweets`
with no `TimelineAddEntries` instruction is the `UnboundLocalError` of the
never-assigned `cursors`. With fewer than two entries it raises: an
`IndexError` for zero entries, and for one entry an `IndexError` only when
that entry decodes as a cursor (otherwise the `KeyError` or `TypeError` of
decoding it comes first).

Behaviour worth noting in `fowl/__init__.py`:

- `tweets` uses `count or 40`, so a count of 0 also becomes 40. It adds
  `cursor` only when the cursor is truthy, so an empty-string cursor is
  dropped.
- `_parse_app_data` needs all three of the app script URL, the
  `window.__META_DATA__` metadata and the guest token, and raises
  `ValueError` without any of them. It returns the tuple
  `(url, metadata, guest_token)`, although it is annotated `-> str`.
- `_parse_tweets` keeps only the entries of the last add-entries
  instruction. It returns the raw entry objects and the raw cursor values
  as they appear in the response.

## Model

| member | source | states |
|---|---|---|
| `Patterns.FindAuthToken` | fowl/__init__.py:13 | the index found is a match of `"([a-zA-Z0-9%]{104})"` at or after the start, and there is no match between the start and it; `None` only when there is no match at all from the start |
| `Patterns.AuthTokenAt` | fowl/__init__.py:13 | where `TWITTER_AUTH_TOKEN_PATTERN` matches: a `"`, 104 characters of `[a-zA-Z0-9%]`, and a `"` |
| `Patterns.ShortestRunIsLeast` | fowl/__init__.py:14-17 | the lazy `.+?` run chosen at a position is the least length that lets the rest of the pattern match there |
| `Patterns.LazySearchIsFirst` | fowl/__init__.py:14-17 | the search reports a match at the leftmost start with the shortest lazy run there; `None` means no start and no run length matches |
| `Patterns.MetadataMatch` | fowl/__init__.py:14 | group 1 of a metadata match is a one-line text of at least three characters, opening with `{` and closing with `}` |
| `Patterns.GuestCookieMatch` | fowl/__init__.py:15-17 | group 1 of a cookie match is a one-line text of at least four characters starting with `gt=` |
| `Patterns.MetadataMatchIsFirst` | fowl/__init__.py:14 | `TWITTER_METADATA_PATTERN.search` fails exactly when the pattern matches nowhere; otherwise group 1 is `{`, the shortest run of the leftmost match, then `}` |
| `Patterns.GuestCookieMatchIsFirst` | fowl/__init__.py:15-17 | `TWITTER_GUEST_TOKEN_COOKIE_PATTERN.search` fails exactly when the pattern matches nowhere; otherwise group 1 is `gt=` and the shortest run of the leftmost match |
| `Bootstrap.ParseAuthToken` | fowl/__init__.py:179-185 | on success: 104 characters from `[A-Za-z0-9%]`, standing between two `"` in the source, at the leftmost such place; `ValueError` exactly when no such place exists |
| `Bootstrap.Contains` | fowl/__init__.py:164 | `"main" in src`: true exactly when the part occurs in the string at some index |
| `Bootstrap.ExamineScript` | fowl/__init__.py:155-171 | one iteration raises exactly when the metadata branch gets an undecodable group (`JsonDecodeError`) or the cookie branch gets no `gt` value (`AttributeError`); otherwise it sets only the accumulator of the first branch the script falls into (`src` containing "main", else metadata match, else cookie match) and keeps the other two |
| `Bootstrap.ScanScripts` | fowl/__init__.py:155-171 | the loop raises exactly when some script makes its iteration raise, and then only `JsonDecodeError` or `AttributeError` |
| `Bootstrap.ExtractAppData` | fowl/__init__.py:147-176 | a result always has a non-empty URL, truthy metadata and a non-empty guest token; a failure other than `ValueError` happens exactly when some script makes the loop raise |
| `Bootstrap.ParseAppData` | fowl/__init__.py:147-176 | the loop over the script elements, which reassigns `url`, `metadata` and `guest_token`, computes exactly the fold `ExtractAppData` |
| `Bootstrap.FinishAppData` | fowl/__init__.py:173-176 | succeeds exactly when the URL, the metadata and the guest token are all set and truthy, and then returns exactly those three; otherwise `ValueError` |
| `Bootstrap.ScanScriptsUnfold` | fowl/__init__.py:155-171 | the loop from element `i` is the iteration on element `i` followed by the loop from `i + 1`; a raised error stops the loop |
| `Bootstrap.ScanKeepsLastUrl` | fowl/__init__.py:155-165 | after the loop, `url` is the `src` of the last script whose `src` contains "main" (a later match overwrites an earlier one) |
| `Bootstrap.ScanKeepsLastMetadata` | fowl/__init__.py:155-167 | after the loop, `metadata` is the decoded group of the last non-main script whose text matches the metadata pattern |
| `Bootstrap.ScanKeepsLastGuestToken` | fowl/__init__.py:155-171 | after the loop, `guest_token` is the `gt` value of the last script that is neither main nor metadata and whose text matches the cookie pattern |
| `Bootstrap.AppDataFromLastScripts` | fowl/__init__.py:151-176 | a successful result comes from the last main script, the last metadata script and the last guest-cookie script, each of which must exist |
| `Bootstrap.AppDataOfLastScripts` | fowl/__init__.py:151-176 | conversely, when no script makes the loop raise and the last main, metadata and guest-cookie scripts exist and give truthy values, the result is exactly those three values |
| `Bootstrap.AppDataNeedsMainScript` | fowl/__init__.py:164-174 | without a script whose `src` contains "main", `_parse_app_data` raises |
| `Bootstrap.MainScriptTextIgnored` | fowl/__init__.py:164-168 | the text of a script taken by the `src` branch is never examined: replacing it leaves the outcome unchanged |
| `Http.BuildHeaders` | fowl/__init__.py:140-144 | exactly the headers `Authorization` and `x-guest-token`; the first is `Bearer ` followed by the auth token, the second the guest token |
| `Http.ValidateStatus` | fowl/__init__.py:20-25 | passes exactly when the status equals the expected status (200 by default, never when `None` is expected); otherwise `ValueError` |
| `GraphQl.EndpointUrl` | fowl/__init__.py:60-71 | an endpoint URL is the GraphQL base URL followed by `/<id>/<operation>` |
| `GraphQl.ToHttpParams` | fowl/__init__.py:62-67 | the parameters have exactly the keys `variables` and `features`, holding the encoded variables and the encoded feature flags |
| `GraphQl.UserByUsername` | fowl/__init__.py:69-88 | URL is the base plus `/pVrmNaXcxPjisIvKtLDMEA/UserByScreenName`; parameters encode `{screen_name: username}` and the fixed feature flags |
| `GraphQl.UserByUsernameInjective` | fowl/__init__.py:70-88 | with an encoder that keeps distinct values apart, two equal lookup requests are for the same handle |
| `GraphQl.PageSize` | fowl/__init__.py:100 | `count or 40`: the given count when it is present and non-zero, else 40; never 0 |
| `GraphQl.TimelineVariables` | fowl/__init__.py:98-108 | the six fixed keys always, with `userId` the user id, `count` the page size and the four flags true; `cursor` is present exactly when the cursor is non-empty, and then holds it |
| `GraphQl.Tweets` | fowl/__init__.py:90-137 | URL is the base plus `/WzJjibAcDa-oCjCcLOotcg/UserTweets`; parameters encode `TimelineVariables` and the fixed feature flags |
| `Json.LastTwo` | fowl/__init__.py:205 | `xs[-2:]`: the last two elements, or all of them when there are fewer than two |
| `Json.Truthy` | fowl/__init__.py:107 | Python truthiness: false exactly for `None`, `False`, `0`, `""`, `[]` and `{}` |
| `Json.Get` | fowl/__init__.py:189 | `v[key]` succeeds exactly on a dict holding the key and returns its value; `TypeError` exactly on a non-dict, `KeyError(key)` exactly on a dict without the key |
| `Json.Chars` | fowl/__init__.py:205-206 | a string seen as a sequence: as many items as characters, item k the one-character string of character k |
| `Json.AsSequence` | fowl/__init__.py:205-206 | slicing succeeds exactly on a list (its elements) or a string (its characters); anything else is a `TypeError` |
| `Json.Iterate` | fowl/__init__.py:202 | the `for` loop gets through exactly a list (its elements), a string, or an empty dict (nothing); otherwise `TypeError` |
| `Json.DropLastTwo` | fowl/__init__.py:206 | `xs[:-2]`: what precedes `xs[-2:]`, so that the two put back together are `xs` |
| `Timeline.ParseUser` | fowl/__init__.py:188-189 | succeeds exactly when `data.user.result` exists under `data` through dicts, and returns it |
| `Timeline.ParseUserEnvelope` | fowl/__init__.py:188-189 | decoding the envelope `{"data": {"user": {"result": node}}}` gives back `node` |
| `Timeline.ParseTweetCursor` | fowl/__init__.py:192-193 | succeeds exactly when the entry has `content.value` through dicts, and returns it |
| `Timeline.TimelineInstructions` | fowl/__init__.py:197-202 | the instructions exist exactly when `_parse_user`'s node has `timeline_v2.timeline.instructions` through dicts and that value can be iterated; they are its items; the failure is never `UnboundLocalError` |
| `Timeline.Step` | fowl/__init__.py:202-206 | one iteration succeeds exactly on an instruction that is a dict with a type and, if it adds entries, has sliceable entries; an add-entries instruction sets `entries` to `[:-2]` and `cursors` to `[-2:]` of its entries whatever the state was, any other keeps the state |
| `Timeline.ScanInstructions` | fowl/__init__.py:202-206 | the loop ends normally exactly when every instruction is well-formed, and its failures are never `UnboundLocalError` |
| `Timeline.DecodeTweets` | fowl/__init__.py:196-211 | `_parse_tweets` raises `UnboundLocalError` exactly when the instructions are found and well-formed but none of them adds entries |
| `Timeline.Finish` | fowl/__init__.py:208-211 | succeeds exactly when `cursors` was bound, holds two items, and both decode as cursors; the page is the entries with those two values |
| `Timeline.ParseTweets` | fowl/__init__.py:196-211 | the loop over the instructions computes the fold `DecodeTweets` |
| `Timeline.ScanSkipsOther` | fowl/__init__.py:202-206 | removing an instruction of another type from anywhere in the list does not change the loop's outcome |
| `Timeline.ScanEndsAtLastAddEntries` | fowl/__init__.py:200-206 | when the loop ends normally, its state is the one the last add-entries instruction alone produces, or the initial state when there is none |
| `Timeline.FinishAfterItems` | fowl/__init__.py:205-211 | a page built from N entries needs N >= 2, and is the first N-2 entries in order with the values of entries N-2 and N-1 as the top and bottom cursors |
| `Timeline.FinishOfItems` | fowl/__init__.py:205-211 | conversely, N >= 2 entries whose last two decode as cursors give the page of the first N-2 entries with those two cursors |
| `Timeline.FinishRejectsChars` | fowl/__init__.py:205-209 | entries given as a string never yield a page |
| `Timeline.FinishNeedsList` | fowl/__init__.py:205-209 | a page comes only from entries that are a list |
| `Timeline.PageOfAddEntries` | fowl/__init__.py:203-211 | a page made from what one add-entries instruction leaves has a list of N >= 2 entries behind it: the first N-2 in order, with the cursors of entries N-2 and N-1 |
| `Timeline.ScanPage` | fowl/__init__.py:200-211 | a page made from the state the loop ends in is the page of the last add-entries instruction |
| `Timeline.DecodeTweetsSound` | fowl/__init__.py:196-211 | every page returned comes from the last add-entries instruction: its entries list has N >= 2 items, the page holds the first N-2 in order, and the cursors are the `content.value` of items N-2 and N-1 |
| `Timeline.DecodeTweetsComplete` | fowl/__init__.py:196-211 | when every instruction is a dict with a type and every add-entries instruction has sliceable entries, the page that the last add-entries instruction determines is returned |
| `Timeline.DecodeTweetsFails` | fowl/__init__.py:205-209 | with no add-entries instruction, or with fewer than two entries in the last one, decoding fails |

## Left out

- `register`, `_get_json`, `get_user_by_username` and `get_tweets`: aiohttp round trips and the session header update, all network I/O. `_validate_status` is modelled on the status code alone.
- `TwitterApi.client_event`: it reads the wall clock (`time.time()`) to build a telemetry payload sent by `register`.
- `TwitterWebapp.URL`: a constant only `register` uses.
- BeautifulSoup's HTML parsing: the model starts from the sequence of script elements it yields.
- `json.dumps`, `json.loads` and `SimpleCookie`: they are function parameters. The model does not fix their output text, only how the code uses what they return.
- Dict key order: Python dicts keep insertion order and `json.dumps` writes keys in that order. Dafny maps are unordered, so the order of keys in the encoded text is not modelled.
- JSON numbers are integers only. Floating-point values in responses are not modelled; no code path in the module inspects a number.
- `Bootstrap.ExamineScript`: reports every failure of the cookie step as `AttributeError`, including the `CookieError` that `SimpleCookie.load` raises on a malformed cookie string.
- `Json.Iterate`: iterating a non-empty dict is reported as the `TypeError` of its first key, without visiting the keys. Subscripting that key string by `"type"` raises this same `TypeError`.
- The repository's two example scripts: command-line drivers that print or write YAML.
