/**
 * The behaviour of `SpotifyService` as functions of the cached token and the
 * outside world's answers. The class in module Service is proved against them.
 */
module ServiceSpec {
  import opened Wrappers
  import opened SpotifyTypes
  import opened Remote
  import opened TrackMerge

  /** The error `getAccessToken` throws. */
  datatype AuthError =
    | TokenRequestFailed  // `new Error('Failed to get access token')` on a non-ok status
    | TokenFetchFailed    // the error thrown by `fetch` or `response.json()`, rethrown

  /** The six literal queries of the retro search, in the order they are run. */
  const RetroQueries: seq<string> := [
    "chiptune 8bit",
    "video game music",
    "retro gaming soundtrack",
    "synthwave gaming",
    "pixel music",
    "arcade music"
  ]

  /** The `limit` each retro query is sent with. */
  const RetroLimit: nat := 10

  /** `if (this.accessToken)`: a cached token counts only if present and non-empty. */
  predicate Usable(cached: Option<string>)
  {
    cached.Some? && cached.value != ""
  }

  /** The cache after a token acquisition, and what the acquisition returned or threw. */
  datatype TokenStep = TokenStep(cache: Option<string>, token: Result<string, AuthError>)

  /** `getAccessToken()`, given the answer the token endpoint would give. */
  function AcquireToken(cache: Option<string>, exchange: Exchange): (r: TokenStep)
    // a usable cached token is returned and the cache is left alone
    ensures Usable(cache) ==> r == TokenStep(cache, Success(cache.value))
    // otherwise the call succeeds exactly when the exchange is granted
    ensures !Usable(cache) ==> (r.token.Success? <==> exchange.Granted?)
    ensures !Usable(cache) && exchange.Granted? ==> r.token.value == exchange.accessToken
    // what is returned is what is cached; a failure caches nothing
    ensures r.token.Success? ==> r.cache == Some(r.token.value)
    ensures r.token.Failure? ==> r.cache == cache
  {
    if Usable(cache) then TokenStep(cache, Success(cache.value))
    else
      match exchange
      case Granted(token, _) => TokenStep(Some(token), Success(token))
      case Refused => TokenStep(cache, Failure(TokenRequestFailed))
      case Unreachable => TokenStep(cache, Failure(TokenFetchFailed))
  }

  /** While a usable token is cached, the token endpoint's answer plays no part. */
  lemma CachedTokenSkipsExchange(cache: Option<string>, e1: Exchange, e2: Exchange)
    requires Usable(cache)
    ensures AcquireToken(cache, e1) == AcquireToken(cache, e2)
  {
  }

  /**
   * Two acquisitions in a row without expiry: after a successful first one
   * (with a non-empty token) the second returns the same token, changes
   * nothing and does not depend on the token endpoint.
   */
  lemma SecondAcquireReuses(cache: Option<string>, e1: Exchange, e2: Exchange)
    requires AcquireToken(cache, e1).token.Success?
    requires AcquireToken(cache, e1).token.value != ""
    ensures var first := AcquireToken(cache, e1);
      AcquireToken(first.cache, e2) == first
  {
  }

  /** A failed acquisition leaves the next one exactly as if it had not happened. */
  lemma FailedAcquireRetries(cache: Option<string>, e1: Exchange, e2: Exchange)
    requires AcquireToken(cache, e1).token.Failure?
    ensures AcquireToken(AcquireToken(cache, e1).cache, e2) == AcquireToken(cache, e2)
  {
  }

  /** `data.items.map((item) => item.track)`. */
  function TracksOf(items: seq<PlaylistItem>): (r: seq<Track>)
    ensures |r| == |items|
    ensures forall i :: 0 <= i < |items| ==> r[i] == items[i].track
  {
    if items == [] then [] else [items[0].track] + TracksOf(items[1..])
  }

  /** `data.tracks.items` of a search response. */
  function SearchItems(body: SearchBody): seq<Track> { body.tracks.items }

  /** `data.playlists.items` of a featured-playlists response. */
  function FeaturedItems(body: FeaturedBody): seq<Playlist> { body.playlists.items }

  /** The tracks of a playlist-tracks response, unwrapped from their items. */
  function PlaylistItems(body: PlaylistTracksBody): seq<Track> { TracksOf(body.items) }

  /** The cache after a data operation, and the list it returned. */
  datatype Fetched<T> = Fetched(cache: Option<string>, items: seq<T>)

  /**
   * The shape shared by `searchTracks`, `getFeaturedPlaylists` and
   * `getPlaylistTracks`: acquire a token, issue one `GET`, and pick the list
   * out of the body; any failure on the way, the token's included, yields
   * the empty list instead of an error.
   */
  function Fetch<B, T>(cache: Option<string>, io: Io<B>, project: B -> seq<T>): (r: Fetched<T>)
    // the token cache evolves as in `getAccessToken`
    ensures r.cache == AcquireToken(cache, io.exchange).cache
    // a token failure or a failed request degrades to the empty list
    ensures AcquireToken(cache, io.exchange).token.Failure? ==> r.items == []
    ensures !io.reply.Delivered? ==> r.items == []
    // otherwise the list read out of the body
    ensures AcquireToken(cache, io.exchange).token.Success? && io.reply.Delivered? ==>
      r.items == project(io.reply.body)
  {
    var step := AcquireToken(cache, io.exchange);
    if step.token.Failure? then Fetched(step.cache, [])
    else
      match io.reply
      case Delivered(body) => Fetched(step.cache, project(body))
      case _ => Fetched(step.cache, [])
  }

  /** The cache after a run of searches, and each search's result in order. */
  datatype Searches = Searches(cache: Option<string>, results: seq<seq<Track>>)

  /**
   * `searchTracks(q, limit)` for each `q` of `queries` in turn, each search
   * starting from the cache the previous one left.
   */
  function SearchEach(cache: Option<string>, queries: seq<string>, limit: nat,
                      answers: SearchRequest -> Io<SearchBody>): (r: Searches)
    ensures |r.results| == |queries|
    decreases |queries|
  {
    if queries == [] then Searches(cache, [])
    else
      var before := SearchEach(cache, queries[..|queries| - 1], limit, answers);
      var last := Fetch(before.cache, answers(SearchRequest(queries[|queries| - 1], limit)), SearchItems);
      Searches(last.cache, before.results + [last.items])
  }

  /**
   * Running one more query extends a run of searches by that query's search
   * from the cache the run left, and its concatenated results by that
   * search's tracks.
   */
  lemma SearchEachExtend(cache: Option<string>, queries: seq<string>, limit: nat,
                         answers: SearchRequest -> Io<SearchBody>, i: nat)
    requires i < |queries|
    ensures var before := SearchEach(cache, queries[..i], limit, answers);
      var last := Fetch(before.cache, answers(SearchRequest(queries[i], limit)), SearchItems);
      var after := SearchEach(cache, queries[..i + 1], limit, answers);
      after.cache == last.cache && Flatten(after.results) == Flatten(before.results) + last.items
  {
    var before := SearchEach(cache, queries[..i], limit, answers);
    assert queries[..i + 1][..i] == queries[..i];
    var last := Fetch(before.cache, answers(SearchRequest(queries[i], limit)), SearchItems);
    assert (before.results + [last.items])[..i] == before.results;
  }

  /**
   * The `i`-th result of a run of searches is the search for the `i`-th
   * query with the given limit, from the cache the first `i` searches left.
   */
  lemma {:induction false} SearchEachResult(cache: Option<string>, queries: seq<string>, limit: nat,
                                            answers: SearchRequest -> Io<SearchBody>, i: nat)
    requires i < |queries|
    ensures SearchEach(cache, queries, limit, answers).results[i]
      == Fetch(SearchEach(cache, queries[..i], limit, answers).cache,
               answers(SearchRequest(queries[i], limit)), SearchItems).items
    decreases |queries|
  {
    var front := queries[..|queries| - 1];
    if i < |queries| - 1 {
      SearchEachResult(cache, front, limit, answers, i);
      assert front[..i] == queries[..i];
      assert front[i] == queries[i];
    } else {
      assert front == queries[..i];
    }
  }

  /**
   * A run of searches depends only on the answers to the requests for its
   * own queries with its own limit: no other request is made.
   */
  lemma {:induction false} SearchEachAsksOnly(cache: Option<string>, queries: seq<string>, limit: nat,
                                              a1: SearchRequest -> Io<SearchBody>,
                                              a2: SearchRequest -> Io<SearchBody>)
    requires forall q :: q in queries ==> a1(SearchRequest(q, limit)) == a2(SearchRequest(q, limit))
    ensures SearchEach(cache, queries, limit, a1) == SearchEach(cache, queries, limit, a2)
    decreases |queries|
  {
    if queries != [] {
      var front := queries[..|queries| - 1];
      assert forall q :: q in front ==> q in queries;
      SearchEachAsksOnly(cache, front, limit, a1, a2);
      assert queries[|queries| - 1] in queries;
    }
  }

  /**
   * `searchRetroGamingTracks()`: the six retro searches with limit 10, their
   * results concatenated in query order, deduplicated by id and cut to 20.
   */
  function RetroGaming(cache: Option<string>, answers: SearchRequest -> Io<SearchBody>): Fetched<Track>
  {
    var run := SearchEach(cache, RetroQueries, RetroLimit, answers);
    Fetched(run.cache, MergeRetro(Flatten(run.results)))
  }

  /**
   * The retro result is the first 20 (or all, if fewer) of the deduplicated
   * concatenation of the six searches' results: one track per distinct id,
   * each the first track with its id, in concatenation order; it depends on
   * nothing but the answers to those six requests.
   */
  lemma RetroGamingProperties(cache: Option<string>, a1: SearchRequest -> Io<SearchBody>,
                              a2: SearchRequest -> Io<SearchBody>)
    requires forall q :: q in RetroQueries ==> a1(SearchRequest(q, RetroLimit)) == a2(SearchRequest(q, RetroLimit))
    ensures var all := Flatten(SearchEach(cache, RetroQueries, RetroLimit, a1).results);
      var r := RetroGaming(cache, a1).items;
      && |r| == (if |Ids(all)| <= RetroCap then |Ids(all)| else RetroCap)
      && r == Dedup(all)[..|r|]
      && DistinctIds(r)
      && (forall x :: x in r ==> 0 <= FindIndex(all, x.id) && all[FindIndex(all, x.id)] == x)
      && (forall i, j :: 0 <= i < j < |r| ==> FindIndex(all, r[i].id) < FindIndex(all, r[j].id))
    ensures RetroGaming(cache, a1) == RetroGaming(cache, a2)
  {
    SearchEachAsksOnly(cache, RetroQueries, RetroLimit, a1, a2);
    MergeRetroProperties(Flatten(SearchEach(cache, RetroQueries, RetroLimit, a1).results));
  }
}
