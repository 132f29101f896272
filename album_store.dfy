/**
 * The client's album store (src/stores/album.ts): the album list with its cache and loading
 * flag, and the songs of the album being viewed. The responses are parameters.
 */
module AlbumStore {

  import opened Wrappers
  import opened Request
  import opened Db
  import opened SongController

  const AlbumsUrl: string := "/songs/albums"
  const SongsUrl: string := "/songs"

  /** The query of `fetchAlbumSongs`: `params: { album: albumName }`. */
  function AlbumQuery(albumName: string): (params: map<string, string>)
    ensures params.Keys == {"album"} && params["album"] == albumName
  {
    map["album" := albumName]
  }

  class Store {
    var albums: seq<AlbumSummary>
    var currentAlbumSongs: seq<SongView>
    var loadingAlbums: bool
    var loadingSongs: bool

    constructor ()
      ensures albums == [] && currentAlbumSongs == [] && !loadingAlbums && !loadingSongs
    {
      albums := [];
      currentAlbumSongs := [];
      loadingAlbums := false;
      loadingSongs := false;
    }

    /** The cached list is reused unless it is empty or a refresh is forced. */
    predicate UsesCache(force: bool)
      reads this
    {
      |albums| > 0 && !force
    }

    /**
     * `fetchAlbums`: with a cached list and no `force`, returns without a request and without a
     * change. Otherwise one request; the list becomes the response, or stays on failure; the
     * loading flag is cleared in every case.
     */
    method FetchAlbums(force: bool, reply: Settled<seq<AlbumSummary>>) returns (call: Option<Call>)
      modifies this
      ensures old(UsesCache(force)) ==>
        && call == None
        && albums == old(albums) && loadingAlbums == old(loadingAlbums)
        && currentAlbumSongs == old(currentAlbumSongs) && loadingSongs == old(loadingSongs)
      ensures !old(UsesCache(force)) ==>
        && call == Some(Get(AlbumsUrl, map[]))
        && albums == (if reply.Resolved? then reply.data else old(albums))
        && !loadingAlbums
        && currentAlbumSongs == old(currentAlbumSongs) && loadingSongs == old(loadingSongs)
    {
      if |albums| > 0 && !force {
        return None;
      }
      loadingAlbums := true;
      call := Some(Get(AlbumsUrl, map[]));
      if reply.Resolved? {
        albums := reply.data;
      }
      loadingAlbums := false;
    }

    /**
     * `fetchAlbumSongs`: clears the current songs, requests the album's songs and shows them; on
     * failure the list stays empty. The loading flag ends cleared.
     */
    method FetchAlbumSongs(albumName: string, reply: Settled<seq<SongView>>) returns (call: Call)
      modifies this
      ensures call == Get(SongsUrl, AlbumQuery(albumName))
      ensures currentAlbumSongs == (if reply.Resolved? then reply.data else [])
      ensures !loadingSongs
      ensures albums == old(albums) && loadingAlbums == old(loadingAlbums)
    {
      currentAlbumSongs := [];
      loadingSongs := true;
      call := Get(SongsUrl, AlbumQuery(albumName));
      if reply.Resolved? {
        currentAlbumSongs := reply.data;
      }
      loadingSongs := false;
    }
  }

  /**
   * The request and the server agree: the album query the store sends filters, on the server, to
   * songs of exactly that album.
   */
  lemma AlbumQueryFiltersByAlbum(albumName: string, s: Song)
    requires albumName != ""
    ensures Listed(s, Some(AlbumQuery(albumName)["album"]), None) <==> !s.isDeleted && s.album == Some(albumName)
  {
  }
}
