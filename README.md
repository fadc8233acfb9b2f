# SpotifyService in Dafny

A model of the catalog client `SpotifyService` (`src/lib/spotify.ts`): the
client-credentials access-token cache and its expiry, the three data
operations with their swallow-and-degrade error policy, the curated
six-query retro-gaming search with its deduplication by track id, and the
`M:SS` duration formatter.

Network calls are not modelled as effects. Each call's outcome is a value
instead: the token endpoint's answer is an `Exchange` (granted, refused, or
unreachable). A catalog request's answer is a `Reply` (delivered body,
unparsable body, non-ok status, or a `fetch` that threw). An `Io` pairs the
two for one data operation. The retro search takes a function from
`SearchRequest` (query and limit) to `Io`. That function is the world's
answer to each request, so the contracts show which requests are made.

Files and modules:

- `wrappers.dfy` (`Wrappers`): `Option` for `string | null`, `Result` for a value or a thrown error.
- `types.dfy` (`SpotifyTypes`): tracks, playlists and the JSON envelopes they arrive in.
- `remote.dfy` (`Remote`): the abstract answers of the outside world.
- `duration.dfy` (`DurationFormat`): `formatDuration`, with a parser as its partner.
- `merge.dfy` (`TrackMerge`): the `filter`/`findIndex` deduplication, `slice(0, 20)`, and the concatenation of results.
- `service_spec.dfy` (`ServiceSpec`): the service's behaviour as functions of the cached token and the answers.
- `service.dfy` (`Service`): the class `SpotifyService`. Its `accessToken` field is updated in place, and each method is proved equal to its `ServiceSpec` function.

Notes on reading the source:

- A cached token is reused only when it is truthy (`if (this.accessToken)`).
  A cached empty string therefore causes a fresh exchange, exactly like `null`.
- `formatDuration` does not read the object's state. It is modelled as a module-level function.

## Model

| member | source | states |
|---|---|---|
| `DurationFormat.FormatDuration` | src/lib/spotify.ts:175-179 | Computes the template for the whole minutes `ms / 60000` and the whole seconds within the minute `(ms % 60000) / 1000`. Its properties are stated by `ParseFormatDuration` (it inverts to `ms / 1000`), `FormatDurationSameSecond` (equal exactly to the second) and `FormatDurationExamples`. |
| `DurationFormat.Render` | src/lib/spotify.ts:178 | Computes the template: the decimal minutes, a colon, and the seconds padded to two characters with '0'. Its shape is stated by `RenderShape` and its parse by `ParseRender`. |
| `DurationFormat.DecimalString` | src/lib/spotify.ts:178 | The rendering of a whole number is non-empty and all decimal digits. It reads back as the number. It starts with '0' only for 0, and it is one character long exactly below 10. |
| `DurationFormat.PadStart` | src/lib/spotify.ts:178 | `padStart` leaves a string that is long enough unchanged. Otherwise it puts fill characters in front up to the target width, with the original string as the suffix. |
| `DurationFormat.SecondsField` | src/lib/spotify.ts:177-178 | A seconds value below 60, once padded, is exactly two digits that denote the value, and the first digit is at most '5'. Values of 10 or more are not padded. |
| `DurationFormat.RenderShape` | src/lib/spotify.ts:178 | For seconds below 60, the template is the decimal minutes (however many digits, no hour rollover), a colon, then exactly two digits that denote the seconds. |
| `DurationFormat.SecondsBelowSixty` | src/lib/spotify.ts:177 | The seconds field `(ms % 60000) / 1000` is always below 60. |
| `DurationFormat.WholeSeconds` | src/lib/spotify.ts:176-177 | Minutes times 60 plus the seconds field is the duration's count of whole seconds, `ms / 1000`. |
| `DurationFormat.ParseJoined` | src/lib/spotify.ts:178 | Decimal digits, a colon and two digits denoting less than 60 parse back to the minutes times 60 plus the seconds. |
| `DurationFormat.ParseRender` | src/lib/spotify.ts:178 | Parsing the template for minutes and seconds below 60 gives minutes times 60 plus seconds. |
| `DurationFormat.ParseFormatDuration` | src/lib/spotify.ts:175-179 | Parsing a rendered duration gives back its count of whole seconds, `ms / 1000`. |
| `DurationFormat.FormatDurationSameSecond` | src/lib/spotify.ts:176-177 | Two durations render the same exactly when they agree to the whole second. Only the milliseconds are floored away. |
| `DurationFormat.FormatDurationExamples` | src/lib/spotify.ts:175-179 | 0 renders as "0:00", 61000 as "1:01" and 3600000 as "60:00". |
| `DurationFormat.MinutesAndSeconds` | src/lib/spotify.ts:176-177 | The minutes are the whole seconds divided by 60. The seconds field is the whole seconds modulo 60. |
| `TrackMerge.FindIndex` | src/lib/spotify.ts:168 | `findIndex` by id returns the first position holding the id, or -1 when no track has it. |
| `TrackMerge.KeepFirsts` | src/lib/spotify.ts:167-169 | Computes the filter from position `k` on: a track is kept when its position is the one `findIndex` returns for its id. `KeepFirstsSound`, `KeepFirstsOrdered` and `KeepFirstsComplete` state what it keeps. |
| `TrackMerge.KeepFirstsSound` | src/lib/spotify.ts:167-169 | Every track the filter keeps is the first track with its id. |
| `TrackMerge.KeepFirstsOrdered` | src/lib/spotify.ts:167-169 | The kept tracks are in the order of their positions in the input. |
| `TrackMerge.KeepFirstsComplete` | src/lib/spotify.ts:167-169 | The first track of every id is kept. |
| `TrackMerge.Dedup` | src/lib/spotify.ts:166-169 | Computes the whole filter. `DedupProperties` and `DedupIsUniqueById` state its result. |
| `TrackMerge.DedupProperties` | src/lib/spotify.ts:166-169 | After deduplication the ids are distinct and the set of ids is unchanged. Each kept track is the first with its id, and input order is preserved. |
| `TrackMerge.DedupIsUniqueById` | src/lib/spotify.ts:167-169 | The `filter`/`findIndex` deduplication equals a single walk that keeps a track exactly when its id has not been seen before. |
| `TrackMerge.DedupTwoSharingId` | src/lib/spotify.ts:167-169 | Of two tracks that share an id, only the first survives. |
| `TrackMerge.Take` | src/lib/spotify.ts:171 | `slice(0, n)` is the prefix of length `min(n, length)`. |
| `TrackMerge.MergeRetro` | src/lib/spotify.ts:166-171 | Computes the filter followed by `slice(0, 20)`. `MergeRetroProperties` states its result. |
| `TrackMerge.Flatten` | src/lib/spotify.ts:159-164 | Computes the list built by pushing each search's tracks in turn onto an empty list. `FlattenAppend` and `ServiceSpec.SearchEachExtend` state how it grows. |
| `TrackMerge.MergeRetroProperties` | src/lib/spotify.ts:166-171 | The merged list is the prefix of the deduplicated concatenation of length exactly `min(20, number of distinct ids)`. So its ids are distinct, each track is a first occurrence, and concatenation order is kept. If there are at most 20 distinct ids, all of them are present. |
| `TrackMerge.DedupPrefix` | src/lib/spotify.ts:167-171 | Any prefix of the deduplicated list, such as the `slice(0, 20)`, still has distinct ids, first occurrences only, and concatenation order. |
| `TrackMerge.DistinctIdsCount` | src/lib/spotify.ts:167-171 | A list with distinct ids has as many ids as elements. |
| `TrackMerge.FlattenAppend` | src/lib/spotify.ts:159-164 | Pushing the blocks one after another keeps them in order: the flattening of `a + b` is the flattening of `a` followed by that of `b`. |
| `ServiceSpec.Usable` | src/lib/spotify.ts:40 | The truthiness test of the cached token: present and not the empty string. `AcquireToken` states what it decides. |
| `ServiceSpec.AcquireToken` | src/lib/spotify.ts:39-71 | A usable cached token is returned and the cache is unchanged. Otherwise the call succeeds exactly when the exchange is granted, and it returns the granted token. A success caches what it returns. A failure caches nothing. |
| `ServiceSpec.CachedTokenSkipsExchange` | src/lib/spotify.ts:40-42 | While a usable token is cached, the token endpoint's answer has no effect. |
| `ServiceSpec.SecondAcquireReuses` | src/lib/spotify.ts:39-66 | After a successful acquisition of a non-empty token, a second one returns the same token and changes nothing, whatever the endpoint would answer. |
| `ServiceSpec.FailedAcquireRetries` | src/lib/spotify.ts:54-69 | After a failed acquisition, the next one behaves as if the failed one had never happened. |
| `ServiceSpec.TracksOf` | src/lib/spotify.ts:141 | Projecting `track` out of the items keeps the length and the order. |
| `ServiceSpec.SearchItems` | src/lib/spotify.ts:90-91 | Reads `tracks.items` out of a search body. `Service.SpotifyService.SearchTracks` states that this is what a delivered search returns. |
| `ServiceSpec.FeaturedItems` | src/lib/spotify.ts:115-116 | Reads `playlists.items` out of a featured-playlists body. `Service.SpotifyService.GetFeaturedPlaylists` states that this is what a delivered answer returns. |
| `ServiceSpec.PlaylistItems` | src/lib/spotify.ts:140-141 | Reads the `track` of each item out of a playlist-tracks body. `TracksOf` states the projection, and `Service.SpotifyService.GetPlaylistTracks` states that this is what a delivered answer returns. |
| `ServiceSpec.Fetch` | src/lib/spotify.ts:74-146 | The token cache evolves as in `getAccessToken`. A token failure or any failed request yields the empty list. Otherwise the result is the list read out of the body. |
| `ServiceSpec.SearchEach` | src/lib/spotify.ts:159-164 | Running the searches in turn gives exactly one result per query. |
| `ServiceSpec.SearchEachExtend` | src/lib/spotify.ts:161-164 | One more loop iteration runs the next query's search from the cache the earlier searches left, and appends exactly that search's tracks to the concatenation. |
| `ServiceSpec.SearchEachResult` | src/lib/spotify.ts:150-164 | The i-th result is the search for the i-th query with the given limit, starting from the cache the earlier searches left. |
| `ServiceSpec.SearchEachAsksOnly` | src/lib/spotify.ts:150-164 | The run depends only on the answers to the requests for its own queries with its own limit. |
| `ServiceSpec.RetroGaming` | src/lib/spotify.ts:149-172 | Computes the six searches with limit 10 in order, threading the token cache, then the merge of their concatenated results. `RetroGamingProperties` states its result. |
| `ServiceSpec.RetroGamingProperties` | src/lib/spotify.ts:149-172 | The retro result is the prefix of the deduplicated concatenation of the six searches' results of length exactly `min(20, number of distinct ids)`. Its ids are distinct, each track is the first with its id, and concatenation order is kept. The result depends only on the answers to those six requests with limit 10. |
| `Service.SpotifyService.constructor` | src/lib/spotify.ts:28-36 | No token is cached at start. The client id is the environment's value, or "" when it is unset. |
| `Service.SpotifyService.GetAccessToken` | src/lib/spotify.ts:39-71 | The new cached token and the returned token or error are those of `AcquireToken` applied to the old cache. |
| `Service.SpotifyService.Expire` | src/lib/spotify.ts:62-64 | The expiry callback clears the cache, so the next acquisition exchanges again. |
| `Service.SpotifyService.SearchTracks` | src/lib/spotify.ts:74-96 | The new cache and the returned tracks are those of `Fetch` with the search body's `tracks.items`. |
| `Service.SpotifyService.GetFeaturedPlaylists` | src/lib/spotify.ts:99-121 | The new cache and the returned playlists are those of `Fetch` with the body's `playlists.items`. |
| `Service.SpotifyService.GetPlaylistTracks` | src/lib/spotify.ts:124-146 | The new cache and the returned tracks are those of `Fetch` with the `track` of each body item. |
| `Service.SpotifyService.SearchRetroGamingTracks` | src/lib/spotify.ts:149-172 | The loop runs the six fixed queries with limit 10 in order and pushes each result, so the list it builds is the concatenation of the search results. The new cache and the returned tracks are those of `RetroGaming`. |

## Left out

- HTTP itself is not modelled: `fetch`, URL building, `encodeURIComponent`, headers and JSON parsing. Each call's outcome is a given `Exchange` or `Reply`. The `query`, `limit` and `playlistId` arguments only name the request.
- The Basic credentials header is not modelled. This includes `btoa` and the client-secret fallback `'dummy_secret'` read from the environment at each exchange.
- Logging is left out: the constructor's warning when no client id is set, and the `console.error` calls.
- Timer timing is left out. `setTimeout` fires after `(expires_in - 60) * 1000` ms, but only its effect is modelled, as the `Expire` event, which may happen at any time. `Granted.expiresIn` is carried but unused. A timer left over from an earlier token that clears a newer token is covered, because `Expire` can be called in any state.
- The default `limit = 20` of `searchTracks` and `getFeaturedPlaylists` (src/lib/spotify.ts:74, 99) is not modelled: `SearchTracks` and `GetFeaturedPlaylists` always take the limit explicitly.
- An expiry that fires between two of the six awaited searches of the retro search (src/lib/spotify.ts:161-164) is not modelled: `SearchRetroGamingTracks` runs to completion, so `Expire` can only happen between calls to the service's methods.
- Overlapping asynchronous calls are left out. Two `getAccessToken` calls that both start an exchange before either finishes cannot be expressed, because every call here runs to completion.
- `DurationFormat.DecimalString`: it does not model JavaScript number formatting for values of 10^21 and above (exponent notation), or precision loss above 2^53. Non-integer and negative durations are also left out: durations are natural numbers.
- Malformed data inside a well-shaped body is not modelled. Examples: a playlist item without `track` (the source would return `undefined` in its place), or an `access_token` missing from a granted exchange. Every body either has the expected shape or is `Unparsable`. `Unparsable` stands only for a body that is not JSON or whose list cannot be reached without throwing (no `tracks` or `playlists` object, no `items` in a playlist's tracks); those degrade to an empty list.
- A `tracks` or `playlists` object without `items` is not modelled. `searchTracks` and `getFeaturedPlaylists` would return `undefined` rather than an empty list (src/lib/spotify.ts:91, 116), and inside the retro search `allTracks.push(...undefined)` would then throw an error that nothing catches (line 163).
- The view-state hook `src/hooks/useSpotify.ts` is not part of this model.
