/**
 * The outside world as the service sees it. Network calls, JSON parsing and
 * timers are not executed here: each call's outcome is given as a value.
 */
module Remote {
  import opened SpotifyTypes

  /** What the token endpoint answers to a client-credentials exchange. */
  datatype Exchange =
    | Granted(accessToken: string, expiresIn: int)  // ok status; `access_token` and `expires_in` of the body
    | Refused                                       // a non-ok HTTP status
    | Unreachable                                   // `fetch` or `response.json()` threw

  /** What a catalog `GET` answers. */
  datatype Reply<B> =
    | Delivered(body: B)  // ok status and a body of the expected shape
    | Unparsable          // ok status, but the body is not JSON or reading the list out of it throws
                          // (no `tracks` or `playlists` object, no `items` in a playlist's tracks)
    | NotOk               // a non-ok HTTP status
    | Dropped             // `fetch` threw

  /**
   * Everything the outside world answers during one data operation: the token
   * endpoint's answer, consulted only when no usable token is cached, and the
   * answer to the catalog request.
   */
  datatype Io<B> = Io(exchange: Exchange, reply: Reply<B>)

  /** A `GET /search?q=<query>&type=track&limit=<limit>` request. */
  datatype SearchRequest = SearchRequest(query: string, limit: nat)
}
