/**
 * The client's player store (src/stores/player.ts): the current song, and the song list fetched
 * with `fetch('/api/songs')`, with its cache and loading flag. `fetch` does not go through the
 * request client, so the HTTP status is never looked at.
 */
module PlayerStore {

  import opened Wrappers
  import opened Db

  const SongListUrl: string := "/api/songs"

  /** How the `fetch` and the `response.json()` that follows it end. */
  datatype FetchOutcome =
    | NetworkError                                  // `fetch` rejects
    | Answered(status: int, json: Option<seq<Song>>) // `None`: the body is not JSON and `json()` rejects

  /** The body reaches the list exactly when it parsed, whatever the status. */
  predicate Delivers(o: FetchOutcome) {
    o.Answered? && o.json.Some?
  }

  class Store {
    var songList: seq<Song>
    var isLoading: bool
    var currentSong: Option<Song>

    constructor ()
      ensures songList == [] && !isLoading && currentSong == None
    {
      songList := [];
      isLoading := false;
      currentSong := None;
    }

    /** `playSong`: sets the current song and nothing else. */
    method PlaySong(song: Song)
      modifies this
      ensures currentSong == Some(song)
      ensures songList == old(songList) && isLoading == old(isLoading)
    {
      currentSong := Some(song);
    }

    /**
     * `fetchSongList`: with a cached list and no `force`, nothing happens. Otherwise one request to
     * `/api/songs`; a parsed body replaces the list even for an error status; a thrown error
     * keeps it. The loading flag ends cleared either way.
     */
    method FetchSongList(force: bool, outcome: FetchOutcome) returns (requested: Option<string>)
      modifies this
      ensures currentSong == old(currentSong)
      ensures |old(songList)| > 0 && !force ==>
        requested == None && songList == old(songList) && isLoading == old(isLoading)
      ensures !(|old(songList)| > 0 && !force) ==>
        && requested == Some(SongListUrl)
        && songList == (if Delivers(outcome) then outcome.json.value else old(songList))
        && !isLoading
    {
      if |songList| > 0 && !force {
        return None;
      }
      isLoading := true;
      requested := Some(SongListUrl);
      if outcome.Answered? && outcome.json.Some? {
        songList := outcome.json.value;
      }
      isLoading := false;
    }
  }
}
