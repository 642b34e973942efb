/** Values shared by the server's playlist store and the browser client. */
module Records {

  /** An optional value (a JavaScript `undefined`, a failed request, an absent key). */
  datatype Option<+T> = None | Some(value: T)

  /** A song record as embedded in a playlist document and as sent to the client:
      `{ id, name, url, fileName }`. */
  datatype Song = Song(id: string, name: string, url: string, fileName: string)

  /** The playlists, keyed by their unique name, each an ordered list of embedded songs. */
  type Playlists = map<string, seq<Song>>

  /** `playlists[name] || []`: the songs of a playlist, or none when the key is absent. */
  function SongsOf(playlists: Playlists, name: string): (songs: seq<Song>)
    ensures name in playlists ==> songs == playlists[name]
    ensures name !in playlists ==> songs == []
  {
    if name in playlists then playlists[name] else []
  }
}
