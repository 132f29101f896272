/**
 * The song listing and the album overview (server/src/controllers/song.controller.ts).
 */
module SongController {

  import opened Wrappers
  import opened Text
  import opened Db
  import opened Sorting
  import opened Seqs

  // ---------------------------------------------------------------- getSongs

  /** The `where` object of `getSongs`: what it filters on. */
  datatype Where = Where(isDeleted: bool, album: Option<string>, anyFieldContains: Option<string>)

  /** How the database reads a `where` object: every present condition must hold; `OR` over the three text columns. */
  predicate Satisfies(s: Song, w: Where) {
    && s.isDeleted == w.isDeleted
    && (w.album.Some? ==> s.album == w.album)
    && (w.anyFieldContains.Some? ==>
          var q := w.anyFieldContains.value;
          Contains(s.title, q) || Contains(s.artist, q) || (s.album.Some? && Contains(s.album.value, q)))
  }

  /** The conditions the listing promises, stated directly on the query parameters. */
  predicate Listed(s: Song, album: Option<string>, search: Option<string>) {
    && !s.isDeleted
    && (Truthy(album) ==> s.album == album)
    && (Truthy(search) ==>
          Contains(s.title, search.value) || Contains(s.artist, search.value)
          || (s.album.Some? && Contains(s.album.value, search.value)))
  }

  /** Builds the `where` object step by step: not deleted, then the album, then the search. */
  method BuildWhere(album: Option<string>, search: Option<string>) returns (w: Where)
    ensures forall s :: Satisfies(s, w) <==> Listed(s, album, search)
  {
    w := Where(false, None, None);
    if Truthy(album) {
      w := w.(album := album);
    }
    if Truthy(search) {
      w := w.(anyFieldContains := search);
    }
  }

  /** `req.user?.id || 0`: anonymous callers look up favorites of the id 0. */
  function ViewerId(userId: Option<int>): (id: int)
    ensures userId.Some? && userId.value != 0 ==> id == userId.value
    ensures userId.None? ==> id == 0
  {
    if userId.Some? && userId.value != 0 then userId.value else 0
  }

  /** A listed song with the `isFavorited` flag in place of the `favoritedBy` relation. */
  datatype SongView = SongView(song: Song, isFavorited: bool)

  /** The songs of the views, in order. */
  function SongsOf(r: seq<SongView>): (s: seq<Song>)
    ensures |s| == |r| && forall i :: 0 <= i < |r| ==> s[i] == r[i].song
  {
    seq(|r|, i requires 0 <= i < |r| => r[i].song)
  }

  /** The rows matching `w`, each once for every time the table holds it, in table order. */
  function Matching(songs: seq<Song>, w: Where): (r: seq<Song>)
    ensures Subsequence(r, songs)
    ensures forall s :: multiset(r)[s] == if Satisfies(s, w) then multiset(songs)[s] else 0
    ensures forall s :: s in r <==> s in songs && Satisfies(s, w)
  {
    if songs == [] then []
    else
      var rest := Matching(songs[1..], w);
      assert songs == [songs[0]] + songs[1..];
      assert forall s :: s in songs <==> s == songs[0] || s in songs[1..];
      if Satisfies(songs[0], w) then [songs[0]] + rest else rest
  }

  /** The matching rows, in table order, each with the flag for the viewer. */
  function Select(songs: seq<Song>, favorites: seq<Favorite>, w: Where, viewer: int): (r: seq<SongView>)
    ensures SongsOf(r) == Matching(songs, w)
    ensures forall i :: 0 <= i < |r| ==> r[i].isFavorited == HasFavorite(favorites, viewer, r[i].song.id)
  {
    var m := Matching(songs, w);
    seq(|m|, i requires 0 <= i < |m| => SongView(m[i], HasFavorite(favorites, viewer, m[i].id)))
  }

  /**
   * `getSongs`: exactly the non-deleted songs of the album (if one is asked for) that contain the
   * search text (if any) in title, artist or album; each flagged with whether the caller has
   * favorited it.
   */
  method GetSongs(songs: seq<Song>, favorites: seq<Favorite>, album: Option<string>, search: Option<string>,
                  userId: Option<int>) returns (r: seq<SongView>)
    ensures |r| <= |songs|
    ensures Subsequence(SongsOf(r), songs)
    ensures forall s :: multiset(SongsOf(r))[s] == if Listed(s, album, search) then multiset(songs)[s] else 0
    ensures forall v :: v in r ==> v.song in songs && Listed(v.song, album, search)
    ensures forall v :: v in r ==> v.isFavorited == HasFavorite(favorites, ViewerId(userId), v.song.id)
    ensures forall s :: s in songs && Listed(s, album, search) ==> SongView(s, HasFavorite(favorites, ViewerId(userId), s.id)) in r
  {
    var w := BuildWhere(album, search);
    r := Select(songs, favorites, w, ViewerId(userId));
    SubsequenceNoLonger(SongsOf(r), songs);
    forall v | v in r
      ensures v.song in songs && Listed(v.song, album, search)
      ensures v.isFavorited == HasFavorite(favorites, ViewerId(userId), v.song.id)
    {
      var i :| 0 <= i < |r| && r[i] == v;
      assert SongsOf(r)[i] == v.song;
    }
    forall s | s in songs && Listed(s, album, search)
      ensures SongView(s, HasFavorite(favorites, ViewerId(userId), s.id)) in r
    {
      var i :| 0 <= i < |SongsOf(r)| && SongsOf(r)[i] == s;
      assert r[i] == SongView(s, HasFavorite(favorites, ViewerId(userId), s.id));
    }
  }

  /** Account ids start at 1, so an anonymous listing flags nothing as favorited. */
  lemma AnonymousSeesNoFavorites(songs: seq<Song>, favorites: seq<Favorite>, w: Where)
    requires forall k :: 0 <= k < |favorites| ==> favorites[k].userId != 0
    ensures forall v :: v in Select(songs, favorites, w, ViewerId(None)) ==> !v.isFavorited
  {
    var r := Select(songs, favorites, w, ViewerId(None));
    forall v | v in r ensures !v.isFavorited {
      var i :| 0 <= i < |r| && r[i] == v;
    }
  }

  // ---------------------------------------------------------------- getAlbums

  /** The song counts toward the album `name`: not deleted and filed under that (non-empty) name. */
  predicate InAlbum(s: Song, name: string) {
    !s.isDeleted && s.album == Some(name) && name != ""
  }

  /** The song is grouped at all: not deleted and with a non-null, non-empty album. */
  predicate HasAlbum(s: Song) {
    !s.isDeleted && s.album.Some? && s.album.value != ""
  }

  /** The distinct album names of the grouped songs, in order of first occurrence. */
  function AlbumNames(songs: seq<Song>): (names: seq<string>)
    ensures forall i, j :: 0 <= i < j < |names| ==> names[i] != names[j]
    ensures forall name :: name in names <==> exists k :: 0 <= k < |songs| && InAlbum(songs[k], name)
  {
    if songs == [] then []
    else
      var n := |songs| - 1;
      var rest := AlbumNames(songs[..n]);
      assert forall k :: 0 <= k < n ==> songs[..n][k] == songs[k];
      if HasAlbum(songs[n]) && songs[n].album.value !in rest then rest + [songs[n].album.value] else rest
  }

  /** `_count.id` of the album's group. */
  function AlbumCount(songs: seq<Song>, name: string): (n: nat)
    ensures n <= |songs|
    ensures n > 0 <==> exists k :: 0 <= k < |songs| && InAlbum(songs[k], name)
  {
    if songs == [] then 0
    else
      assert forall k :: 0 < k < |songs| ==> songs[k] == songs[1..][k - 1];
      (if InAlbum(songs[0], name) then 1 else 0) + AlbumCount(songs[1..], name)
  }

  /** The album's song with the highest id. */
  function Latest(songs: seq<Song>, name: string): (r: Option<Song>)
    ensures r.None? <==> forall k :: 0 <= k < |songs| ==> !InAlbum(songs[k], name)
    ensures r.Some? ==> r.value in songs && InAlbum(r.value, name)
    ensures r.Some? ==> forall k :: 0 <= k < |songs| && InAlbum(songs[k], name) ==> songs[k].id <= r.value.id
  {
    if songs == [] then None
    else
      var rest := Latest(songs[1..], name);
      assert forall k :: 0 < k < |songs| ==> songs[k] == songs[1..][k - 1];
      if InAlbum(songs[0], name) && (rest.None? || rest.value.id < songs[0].id) then Some(songs[0]) else rest
  }

  /** `latestSong?.cover || null` */
  function AlbumCover(songs: seq<Song>, name: string): (c: Option<string>)
    ensures c.Some? ==> c.value != "" && Latest(songs, name).Some? && Latest(songs, name).value.cover == c
    ensures c.None? ==> Latest(songs, name).None? || !Truthy(Latest(songs, name).value.cover)
  {
    match Latest(songs, name)
    case None => None
    case Some(s) => if Truthy(s.cover) then s.cover else None
  }

  datatype AlbumSummary = AlbumSummary(name: string, count: nat, cover: Option<string>)

  function SummaryCount(a: AlbumSummary): int {
    a.count
  }

  /** The summaries in group order, before sorting. */
  function Summaries(songs: seq<Song>): (r: seq<AlbumSummary>)
    ensures |r| == |AlbumNames(songs)|
    ensures forall i :: 0 <= i < |r| ==> r[i].name == AlbumNames(songs)[i]
    ensures forall a :: a in r ==> a.count == AlbumCount(songs, a.name) > 0 && a.cover == AlbumCover(songs, a.name)
  {
    var names := AlbumNames(songs);
    assert forall i :: 0 <= i < |names| ==> names[i] in names;
    seq(|names|, i requires 0 <= i < |names| => AlbumSummary(names[i], AlbumCount(songs, names[i]), AlbumCover(songs, names[i])))
  }

  /**
   * `getAlbums`: one summary per album of the non-deleted songs (null and '' excluded), with its
   * song count and the cover of its newest song, sorted in place by count, largest first.
   */
  method GetAlbums(songs: seq<Song>) returns (r: seq<AlbumSummary>)
    ensures SortedDesc(r, SummaryCount)
    ensures multiset(r) == multiset(Summaries(songs))
    ensures AlbumNames(songs) == [] ==> r == []
  {
    var names := AlbumNames(songs);
    if |names| == 0 {
      return [];
    }
    var summaries := Summaries(songs);
    var a := new AlbumSummary[|summaries|](i requires 0 <= i < |summaries| => summaries[i]);
    assert a[..] == summaries;
    SortDescInPlace(a, SummaryCount);
    r := a[..];
  }

  /** Every grouped album appears exactly once in the overview. */
  lemma AlbumsListedOnce(songs: seq<Song>, r: seq<AlbumSummary>, name: string)
    requires multiset(r) == multiset(Summaries(songs))
    requires exists k :: 0 <= k < |songs| && InAlbum(songs[k], name)
    ensures exists i :: 0 <= i < |r| && r[i].name == name
    ensures forall i, j :: 0 <= i < j < |r| ==> r[i].name != r[j].name
  {
    var names := AlbumNames(songs);
    var all := Summaries(songs);
    assert name in names;
    var i :| 0 <= i < |names| && names[i] == name;
    SameMembers(r, all);
    assert all[i] in all;
    assert all[i] in r;
    PermutationKeepsDistinct(r, all, AlbumName);
  }

  function AlbumName(a: AlbumSummary): string {
    a.name
  }
}
