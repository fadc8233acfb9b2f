/**
 * `SpotifyService`: the one piece of state is the cached access token,
 * written by `getAccessToken` and cleared by the expiry timer. Each method is
 * proved against the functions of ServiceSpec.
 */
module Service {
  import opened Wrappers
  import opened SpotifyTypes
  import opened Remote
  import opened TrackMerge
  import opened ServiceSpec

  class SpotifyService {
    /** `accessToken: string | null`, initially null. */
    var accessToken: Option<string>
    /** The client identifier read from the environment at construction. */
    const clientId: string

    /** `new SpotifyService()`: `clientId` is the environment's value, or "" when it is unset or empty. */
    constructor (envClientId: Option<string>)
      ensures accessToken == None
      ensures clientId == envClientId.GetOr("")
    {
      clientId := envClientId.GetOr("");
      accessToken := None;
    }

    /** `getAccessToken()`: reuse the cached token, else exchange credentials for one. */
    method GetAccessToken(exchange: Exchange) returns (token: Result<string, AuthError>)
      modifies this
      ensures TokenStep(accessToken, token) == AcquireToken(old(accessToken), exchange)
    {
      if accessToken.Some? && accessToken.value != "" {
        return Success(accessToken.value);
      }
      match exchange
      case Refused =>
        token := Failure(TokenRequestFailed);
      case Unreachable =>
        token := Failure(TokenFetchFailed);
      case Granted(granted, _) =>
        accessToken := Some(granted);
        token := Success(accessToken.value);
    }

    /** The expiry timer's callback: `this.accessToken = null`. */
    method Expire()
      modifies this
      ensures accessToken == None
      ensures !Usable(accessToken)
    {
      accessToken := None;
    }

    /** `searchTracks(query, limit)`; `query` and `limit` only shape the request URL. */
    method SearchTracks(query: string, limit: nat, io: Io<SearchBody>) returns (tracks: seq<Track>)
      modifies this
      ensures Fetched(accessToken, tracks) == Fetch(old(accessToken), io, SearchItems)
    {
      var token := GetAccessToken(io.exchange);
      if token.Failure? {
        return [];
      }
      match io.reply
      case Delivered(body) =>
        tracks := body.tracks.items;
      case _ =>
        tracks := [];
    }

    /** `getFeaturedPlaylists(limit)`; `limit` only shapes the request URL. */
    method GetFeaturedPlaylists(limit: nat, io: Io<FeaturedBody>) returns (playlists: seq<Playlist>)
      modifies this
      ensures Fetched(accessToken, playlists) == Fetch(old(accessToken), io, FeaturedItems)
    {
      var token := GetAccessToken(io.exchange);
      if token.Failure? {
        return [];
      }
      match io.reply
      case Delivered(body) =>
        playlists := body.playlists.items;
      case _ =>
        playlists := [];
    }

    /** `getPlaylistTracks(playlistId)`; `playlistId` only shapes the request URL. */
    method GetPlaylistTracks(playlistId: string, io: Io<PlaylistTracksBody>) returns (tracks: seq<Track>)
      modifies this
      ensures Fetched(accessToken, tracks) == Fetch(old(accessToken), io, PlaylistItems)
    {
      var token := GetAccessToken(io.exchange);
      if token.Failure? {
        return [];
      }
      match io.reply
      case Delivered(body) =>
        tracks := TracksOf(body.items);
      case _ =>
        tracks := [];
    }

    /**
     * `searchRetroGamingTracks()`: the six searches run one after another,
     * each answered by `answers` for its request; the results are pushed onto
     * one list, deduplicated by id and cut to 20.
     */
    method SearchRetroGamingTracks(answers: SearchRequest -> Io<SearchBody>) returns (tracks: seq<Track>)
      modifies this
      ensures Fetched(accessToken, tracks) == RetroGaming(old(accessToken), answers)
    {
      var queries := RetroQueries;
      var allTracks: seq<Track> := [];
      for i := 0 to |queries|
        invariant var run := SearchEach(old(accessToken), queries[..i], RetroLimit, answers);
          accessToken == run.cache && allTracks == Flatten(run.results)
      {
        SearchEachExtend(old(accessToken), queries, RetroLimit, answers, i);
        var found := SearchTracks(queries[i], RetroLimit, answers(SearchRequest(queries[i], RetroLimit)));
        allTracks := allTracks + found;
      }
      assert queries[..|queries|] == queries;
      tracks := Take(Dedup(allTracks), RetroCap);
    }
  }
}
