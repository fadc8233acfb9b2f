/**
 * The catalog records the client reads out of the remote JSON responses
 * (`SpotifyTrack`, `SpotifyPlaylist`) and the envelopes they arrive in.
 * All of them are immutable snapshots of remote data.
 */
module SpotifyTypes {
  import opened Wrappers

  datatype Image = Image(url: string)
  datatype Artist = Artist(name: string)
  datatype Album = Album(name: string, images: seq<Image>)

  /** One track; only `id` matters to the client's own logic. */
  datatype Track = Track(
    id: string,
    name: string,
    artists: seq<Artist>,
    album: Album,
    durationMs: nat,
    previewUrl: Option<string>)

  /** An entry of a playlist's track listing: it wraps a track. */
  datatype PlaylistItem = PlaylistItem(track: Track)

  datatype PlaylistTracks = PlaylistTracks(total: nat, items: seq<PlaylistItem>)

  datatype Playlist = Playlist(
    id: string,
    name: string,
    description: string,
    images: seq<Image>,
    tracks: PlaylistTracks)

  /** A page of results: `{ items: [...] }`. */
  datatype Paging<T> = Paging(items: seq<T>)

  /** Body of `GET /search`: `{ tracks: { items: Track[] } }`. */
  datatype SearchBody = SearchBody(tracks: Paging<Track>)

  /** Body of `GET /browse/featured-playlists`: `{ playlists: { items: Playlist[] } }`. */
  datatype FeaturedBody = FeaturedBody(playlists: Paging<Playlist>)

  /** Body of `GET /playlists/{id}/tracks`: `{ items: [{ track: Track }] }`. */
  datatype PlaylistTracksBody = PlaylistTracksBody(items: seq<PlaylistItem>)
}
