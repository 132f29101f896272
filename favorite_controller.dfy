/**
 * Favorites (server/src/controllers/favorite.controller.ts): toggling a `(userId, songId)`
 * favorite, listing the caller's favorites with their songs, and the favorite ranking over a
 * month, a year or all time.
 */
module FavoriteController {

  import opened Wrappers
  import opened Db
  import opened Sorting
  import opened Seqs

  const NotLoggedIn: string := "未登录"
  const MissingSongId: string := "缺少 songId"
  const Unfavorited: string := "已取消收藏"
  const Favorited: string := "已添加收藏"
  const OperationFailed: string := "操作失败"

  /** `take: 50` */
  const RankSize: nat := 50

  /** `!id` on a numeric id: absent, null and 0 are all falsy. */
  predicate TruthyId(x: Option<int>) {
    x.Some? && x.value != 0
  }

  /** The favorite keys the table holds. */
  function Pairs(rows: seq<Favorite>): set<(int, int)> {
    set k | 0 <= k < |rows| :: (rows[k].userId, rows[k].songId)
  }

  lemma PairsAreFavorites(rows: seq<Favorite>)
    ensures forall a, b :: (a, b) in Pairs(rows) <==> HasFavorite(rows, a, b)
  {
    forall a, b | HasFavorite(rows, a, b)
      ensures (a, b) in Pairs(rows)
    {
      var k :| 0 <= k < |rows| && rows[k].userId == a && rows[k].songId == b;
      assert (rows[k].userId, rows[k].songId) in Pairs(rows);
    }
  }

  // ---------------------------------------------------------------- toggle

  /** The table after `prisma.favorite.delete` of the key `(userId, songId)`. */
  function Without(rows: seq<Favorite>, userId: int, songId: int): (r: seq<Favorite>)
    ensures forall f :: f in r <==> f in rows && (f.userId != userId || f.songId != songId)
    ensures UniqueFavorites(rows) ==> UniqueFavorites(r)
  {
    if rows == [] then []
    else
      var rest := Without(rows[1..], userId, songId);
      assert forall f :: f in rows <==> f == rows[0] || f in rows[1..];
      if rows[0].userId == userId && rows[0].songId == songId then rest
      else
        assert UniqueFavorites(rows) ==> forall f :: f in rest ==>
          (f.userId, f.songId) != (rows[0].userId, rows[0].songId) by {
          if UniqueFavorites(rows) {
            forall f | f in rest
              ensures (f.userId, f.songId) != (rows[0].userId, rows[0].songId)
            {
              var k :| 0 <= k < |rows[1..]| && rows[1..][k] == f;
              assert rows[k + 1] == f;
            }
          }
        }
        [rows[0]] + rest
  }

  /** The table after the toggle: the key is deleted when present, created (at `now`) otherwise. */
  function Toggled(rows: seq<Favorite>, userId: int, songId: int, now: Moment): (r: seq<Favorite>)
    ensures UniqueFavorites(rows) ==> UniqueFavorites(r)
    ensures HasFavorite(r, userId, songId) <==> !HasFavorite(rows, userId, songId)
    ensures forall a, b :: (a != userId || b != songId) ==> (HasFavorite(r, a, b) <==> HasFavorite(rows, a, b))
  {
    if HasFavorite(rows, userId, songId) then
      var r := Without(rows, userId, songId);
      WithoutKeepsOthers(rows, userId, songId);
      r
    else
      var r := rows + [Favorite(userId, songId, now)];
      assert forall a, b :: HasFavorite(r, a, b) <==> HasFavorite(rows, a, b) || (a == userId && b == songId) by {
        forall a, b ensures HasFavorite(r, a, b) ==> HasFavorite(rows, a, b) || (a == userId && b == songId) {
          if HasFavorite(r, a, b) {
            var k :| 0 <= k < |r| && r[k].userId == a && r[k].songId == b;
            if k < |rows| { assert rows[k] == r[k]; }
          }
        }
        forall a, b | HasFavorite(rows, a, b) ensures HasFavorite(r, a, b) {
          var k :| 0 <= k < |rows| && rows[k].userId == a && rows[k].songId == b;
          assert r[k] == rows[k];
        }
        assert r[|rows|] == Favorite(userId, songId, now);
      }
      r
  }

  lemma WithoutKeepsOthers(rows: seq<Favorite>, userId: int, songId: int)
    ensures !HasFavorite(Without(rows, userId, songId), userId, songId)
    ensures forall a, b :: (a != userId || b != songId) ==>
      (HasFavorite(Without(rows, userId, songId), a, b) <==> HasFavorite(rows, a, b))
  {
    var r := Without(rows, userId, songId);
    forall a, b | a != userId || b != songId
      ensures HasFavorite(r, a, b) <==> HasFavorite(rows, a, b)
    {
      if HasFavorite(rows, a, b) {
        var k :| 0 <= k < |rows| && rows[k].userId == a && rows[k].songId == b;
        assert rows[k] in rows;
        var m :| 0 <= m < |r| && r[m] == rows[k];
      }
      if HasFavorite(r, a, b) {
        var k :| 0 <= k < |r| && r[k].userId == a && r[k].songId == b;
        assert r[k] in r;
        var m :| 0 <= m < |rows| && rows[m] == r[k];
      }
    }
  }

  /** Toggling the same key twice gives back the same set of favorite keys. */
  lemma ToggleTwiceRestoresPairs(rows: seq<Favorite>, userId: int, songId: int, t1: Moment, t2: Moment)
    ensures Pairs(Toggled(Toggled(rows, userId, songId, t1), userId, songId, t2)) == Pairs(rows)
  {
    var once := Toggled(rows, userId, songId, t1);
    var twice := Toggled(once, userId, songId, t2);
    PairsAreFavorites(rows);
    PairsAreFavorites(twice);
    forall a, b ensures HasFavorite(twice, a, b) <==> HasFavorite(rows, a, b) {
    }
    assert forall p :: p in Pairs(twice) <==> p in Pairs(rows) by {
      forall p ensures p in Pairs(twice) <==> p in Pairs(rows) {
        assert (p.0, p.1) == p;
      }
    }
  }

  datatype ToggleReply = ToggleFailed(status: int, message: string) | ToggleDone(isFavorited: bool, message: string)

  /**
   * `toggleFavorite`: 401 without a user, 400 without a (truthy) song id. Otherwise the key is
   * flipped and the reply's flag says whether it is now present; creating a favorite for a song
   * no row has breaks the foreign key, which the handler reports as 500 with the table unchanged.
   */
  method ToggleFavorite(favorites: FavoriteTable, songs: seq<Song>, userId: Option<int>, songId: Option<int>, now: Moment)
    returns (r: ToggleReply)
    requires favorites.Valid()
    modifies favorites
    ensures favorites.Valid()
    ensures SongsExist(old(favorites.rows), songs) ==> SongsExist(favorites.rows, songs)
    ensures !TruthyId(userId) ==> r == ToggleFailed(401, NotLoggedIn) && favorites.rows == old(favorites.rows)
    ensures TruthyId(userId) && !TruthyId(songId) ==>
      r == ToggleFailed(400, MissingSongId) && favorites.rows == old(favorites.rows)
    ensures (TruthyId(userId) && TruthyId(songId) && !HasFavorite(old(favorites.rows), userId.value, songId.value)
             && SongWithId(songs, songId.value).None?) ==>
      r == ToggleFailed(500, OperationFailed) && favorites.rows == old(favorites.rows)
    ensures (TruthyId(userId) && TruthyId(songId)
             && (HasFavorite(old(favorites.rows), userId.value, songId.value) || SongWithId(songs, songId.value).Some?)) ==>
      && favorites.rows == Toggled(old(favorites.rows), userId.value, songId.value, now)
      && r.ToggleDone?
      && r.isFavorited == HasFavorite(favorites.rows, userId.value, songId.value)
      && r.message == (if r.isFavorited then Favorited else Unfavorited)
  {
    if !TruthyId(userId) {
      return ToggleFailed(401, NotLoggedIn);
    }
    if !TruthyId(songId) {
      return ToggleFailed(400, MissingSongId);
    }
    var u, s := userId.value, songId.value;
    if HasFavorite(favorites.rows, u, s) {
      favorites.rows := Without(favorites.rows, u, s);
      WithoutKeepsOthers(old(favorites.rows), u, s);
      if SongsExist(old(favorites.rows), songs) {
        WithoutKeepsSongsExist(old(favorites.rows), songs, u, s);
      }
      r := ToggleDone(false, Unfavorited);
    } else if SongWithId(songs, s).None? {
      r := ToggleFailed(500, OperationFailed);
    } else {
      favorites.rows := Toggled(favorites.rows, u, s, now);
      assert favorites.rows == old(favorites.rows) + [Favorite(u, s, now)];
      r := ToggleDone(true, Favorited);
    }
  }

  /** Deleting rows keeps every remaining row's song in the song table. */
  lemma WithoutKeepsSongsExist(rows: seq<Favorite>, songs: seq<Song>, userId: int, songId: int)
    requires SongsExist(rows, songs)
    ensures SongsExist(Without(rows, userId, songId), songs)
  {
    var r := Without(rows, userId, songId);
    forall k | 0 <= k < |r| ensures SongWithId(songs, r[k].songId).Some? {
      assert r[k] in r;
      var m :| 0 <= m < |rows| && rows[m] == r[k];
    }
  }

  // ---------------------------------------------------------------- my favorites

  /** Every favorite's song exists: the foreign key of `Favorite.song`. */
  predicate SongsExist(favorites: seq<Favorite>, songs: seq<Song>) {
    forall k :: 0 <= k < |favorites| ==> SongWithId(songs, favorites[k].songId).Some?
  }

  /** `findMany({ where: { userId } })`: exactly the user's rows, each as often as the table holds it, in table order. */
  function OwnFavorites(favorites: seq<Favorite>, userId: int): (r: seq<Favorite>)
    ensures Subsequence(r, favorites)
    ensures forall f :: multiset(r)[f] == if f.userId == userId then multiset(favorites)[f] else 0
    ensures forall f :: f in r <==> f in favorites && f.userId == userId
  {
    if favorites == [] then []
    else
      var rest := OwnFavorites(favorites[1..], userId);
      assert favorites == [favorites[0]] + favorites[1..];
      assert forall f :: f in favorites <==> f == favorites[0] || f in favorites[1..];
      if favorites[0].userId == userId then [favorites[0]] + rest else rest
  }

  /** `{ ...f.song, isFavorited: true, favoritedAt: f.createdAt }` */
  datatype FavoriteItem = FavoriteItem(song: Song, isFavorited: bool, favoritedAt: Moment)

  /** One item per favorite of the user, each carrying its song, the flag and the favorite's time. */
  function MyFavorites(favorites: seq<Favorite>, songs: seq<Song>, userId: int): (items: seq<FavoriteItem>)
    requires SongsExist(favorites, songs)
    ensures |items| == |OwnFavorites(favorites, userId)|
    ensures forall i :: 0 <= i < |items| ==>
      var f := OwnFavorites(favorites, userId)[i];
      && f in favorites && f.userId == userId
      && items[i].isFavorited
      && items[i].song in songs && items[i].song.id == f.songId
      && items[i].favoritedAt == f.createdAt
  {
    var own := OwnFavorites(favorites, userId);
    assert forall i :: 0 <= i < |own| ==> SongWithId(songs, own[i].songId).Some? by {
      forall i | 0 <= i < |own| ensures SongWithId(songs, own[i].songId).Some? {
        assert own[i] in own;
        var k :| 0 <= k < |favorites| && favorites[k] == own[i];
      }
    }
    seq(|own|, i requires 0 <= i < |own| => FavoriteItem(SongWithId(songs, own[i].songId).value, true, own[i].createdAt))
  }

  datatype FavoritesReply = FavoritesFailed(status: int, message: string) | FavoritesListed(items: seq<FavoriteItem>)

  /** `getMyFavorites`: 401 without a user, otherwise the user's favorites. */
  function GetMyFavorites(favorites: seq<Favorite>, songs: seq<Song>, userId: Option<int>): (r: FavoritesReply)
    requires SongsExist(favorites, songs)
    ensures !TruthyId(userId) <==> r == FavoritesFailed(401, NotLoggedIn)
    ensures TruthyId(userId) ==> r == FavoritesListed(MyFavorites(favorites, songs, userId.value))
  {
    if !TruthyId(userId) then FavoritesFailed(401, NotLoggedIn)
    else FavoritesListed(MyFavorites(favorites, songs, userId.value))
  }

  // ---------------------------------------------------------------- rank

  /** A half-open time window `[start, end)`. */
  datatype Window = Window(start: Moment, end: Moment)

  predicate Within(m: Moment, w: Window) {
    AtOrAfter(m, w.start) && Before(m, w.end)
  }

  /** `new Date(year, month + 1, 1)`: month 12 rolls over to January of the next year. */
  function FirstOfNextMonth(year: int, month: int): (m: Moment)
    requires 0 <= month < 12
    ensures ValidMoment(m) && m.offset == 0
    ensures Before(Moment(year, month, 0), m)
  {
    if month == 11 then Moment(year + 1, 0, 0) else Moment(year, month + 1, 0)
  }

  const Epoch: Moment := Moment(1970, 0, 0)
  const FarFuture: Moment := Moment(9999, 0, 0)

  /** The window of `getFavoriteRank` for the `type` query parameter at time `now`. */
  function RankWindow(kind: Option<string>, now: Moment): (w: Window)
    requires ValidMoment(now)
    ensures Before(w.start, w.end)
    ensures kind == Some("month") ==> w == Window(Moment(now.year, now.month, 0), FirstOfNextMonth(now.year, now.month))
    ensures kind == Some("year") ==> w == Window(Moment(now.year, 0, 0), Moment(now.year + 1, 0, 0))
    ensures kind != Some("month") && kind != Some("year") ==> w == Window(Epoch, FarFuture)
  {
    if kind == Some("month") then Window(Moment(now.year, now.month, 0), FirstOfNextMonth(now.year, now.month))
    else if kind == Some("year") then Window(Moment(now.year, 0, 0), Moment(now.year + 1, 0, 0))
    else Window(Epoch, FarFuture)
  }

  /** The month and year windows contain the moment they are computed for, and the month lies inside the year. */
  lemma {:induction false} WindowsNest(now: Moment, m: Moment)
    requires ValidMoment(now) && ValidMoment(m)
    ensures Within(now, RankWindow(Some("month"), now))
    ensures Within(now, RankWindow(Some("year"), now))
    ensures Within(m, RankWindow(Some("month"), now)) ==> Within(m, RankWindow(Some("year"), now))
    ensures 1970 <= now.year < 9999 ==> Within(now, RankWindow(None, now))
  {
    var month := RankWindow(Some("month"), now);
    var year := RankWindow(Some("year"), now);
    assert month.start == Moment(now.year, now.month, 0);
    assert year == Window(Moment(now.year, 0, 0), Moment(now.year + 1, 0, 0));
    if Within(m, month) {
      assert m.year == now.year || (now.month == 11 && m.year == now.year + 1 && m.month == 0 && m.offset < 0);
    }
  }

  lemma {:induction false} WindowNoLarger(favorites: seq<Favorite>, w: Window)
    ensures |InWindow(favorites, w)| <= |favorites|
  {
    if favorites != [] {
      WindowNoLarger(favorites[1..], w);
    }
  }

  /** The favorites created inside the window. */
  function InWindow(favorites: seq<Favorite>, w: Window): (r: seq<Favorite>)
    ensures forall f :: f in r <==> f in favorites && Within(f.createdAt, w)
  {
    if favorites == [] then []
    else
      var rest := InWindow(favorites[1..], w);
      assert forall f :: f in favorites <==> f == favorites[0] || f in favorites[1..];
      if Within(favorites[0].createdAt, w) then [favorites[0]] + rest else rest
  }

  /** How many favorites name the song. */
  function CountFor(favorites: seq<Favorite>, songId: int): (n: nat)
    ensures n <= |favorites|
    ensures n > 0 <==> exists k :: 0 <= k < |favorites| && favorites[k].songId == songId
  {
    if favorites == [] then 0
    else
      var rest := CountFor(favorites[1..], songId);
      assert forall k :: 0 < k < |favorites| ==> favorites[k] == favorites[1..][k - 1];
      (if favorites[0].songId == songId then 1 else 0) + rest
  }

  /** The distinct song ids of the favorites, in order of first occurrence. */
  function SongIds(favorites: seq<Favorite>): (ids: seq<int>)
    ensures forall i, j :: 0 <= i < j < |ids| ==> ids[i] != ids[j]
    ensures forall id :: id in ids <==> exists k :: 0 <= k < |favorites| && favorites[k].songId == id
  {
    if favorites == [] then []
    else
      var n := |favorites| - 1;
      var rest := SongIds(favorites[..n]);
      assert forall k :: 0 <= k < n ==> favorites[..n][k] == favorites[k];
      if favorites[n].songId in rest then rest else rest + [favorites[n].songId]
  }

  /** One `groupBy` row: a song id and its `_count`. */
  datatype Group = Group(songId: int, count: nat)

  function GroupCount(g: Group): int {
    g.count
  }

  function GroupSongId(g: Group): int {
    g.songId
  }

  /** `groupBy({ by: ['songId'], _count })`: one group per favorited song, with its count. */
  function Groups(favorites: seq<Favorite>): (gs: seq<Group>)
    ensures forall g :: g in gs ==> g.count == CountFor(favorites, g.songId) && g.count > 0
    ensures forall id :: CountFor(favorites, id) > 0 ==> exists g :: g in gs && g.songId == id
    ensures forall i, j :: 0 <= i < j < |gs| ==> gs[i].songId != gs[j].songId
    ensures |gs| == |SongIds(favorites)|
  {
    var ids := SongIds(favorites);
    var gs := seq(|ids|, i requires 0 <= i < |ids| => Group(ids[i], CountFor(favorites, ids[i])));
    assert forall i :: 0 <= i < |ids| ==> ids[i] in ids;
    assert forall id :: id in ids ==> Group(id, CountFor(favorites, id)) in gs by {
      forall id | id in ids ensures Group(id, CountFor(favorites, id)) in gs {
        var i :| 0 <= i < |ids| && ids[i] == id;
        assert gs[i] == Group(id, CountFor(favorites, id));
      }
    }
    gs
  }

  /** No group of `gs` is for the song. */
  predicate NoGroupFor(gs: seq<Group>, id: int) {
    forall j :: 0 <= j < |gs| ==> gs[j].songId != id
  }

  /**
   * The groups ordered by count, largest first, cut to the first 50: one per favorited song up
   * to 50, each song at most once, and no favorited song left out with more favorites than a
   * group kept.
   */
  function RankGroups(favorites: seq<Favorite>): (gs: seq<Group>)
    ensures |gs| == if |SongIds(favorites)| <= RankSize then |SongIds(favorites)| else RankSize
    ensures SortedDesc(gs, GroupCount)
    ensures forall g :: g in gs ==> g.count == CountFor(favorites, g.songId) && g.count > 0
    ensures forall i, j :: 0 <= i < j < |gs| ==> gs[i].songId != gs[j].songId
    ensures forall g, id :: g in gs && CountFor(favorites, id) > 0 && NoGroupFor(gs, id) ==> CountFor(favorites, id) <= g.count
  {
    var all := Groups(favorites);
    TopKeepsDistinct(all, RankSize, GroupCount, GroupSongId);
    var r := Top(all, RankSize, GroupCount);
    forall g, id | g in r && CountFor(favorites, id) > 0 && NoGroupFor(r, id)
      ensures CountFor(favorites, id) <= g.count
    {
      var h :| h in all && h.songId == id;
      assert forall j :: 0 <= j < |r| ==> r[j] != h;
      assert GroupCount(h) <= GroupCount(g);
    }
    r
  }

  /**
   * The ranked groups are `groupBy` rows: no row left out has a larger count than one kept, and
   * with at most 50 rows all of them are kept.
   */
  lemma RankGroupsAreTop(favorites: seq<Favorite>)
    ensures forall g :: g in RankGroups(favorites) ==> g in Groups(favorites)
    ensures forall g, h :: g in Groups(favorites) && g !in RankGroups(favorites) && h in RankGroups(favorites) ==>
      g.count <= h.count
    ensures |Groups(favorites)| <= RankSize ==> multiset(RankGroups(favorites)) == multiset(Groups(favorites))
  {
    var all := Groups(favorites);
    var r := Top(all, RankSize, GroupCount);
    assert RankGroups(favorites) == r;
    forall g, h | g in all && g !in r && h in r
      ensures g.count <= h.count
    {
      assert GroupCount(g) <= GroupCount(h);
    }
  }

  /** `findMany({ where: { id: { in: songIds } } })`: deleted songs included. */
  function SongsWithIds(songs: seq<Song>, ids: seq<int>): (r: seq<Song>)
    ensures forall s :: s in r <==> s in songs && s.id in ids
  {
    if songs == [] then []
    else
      var rest := SongsWithIds(songs[1..], ids);
      assert forall s :: s in songs <==> s == songs[0] || s in songs[1..];
      if songs[0].id in ids then [songs[0]] + rest else rest
  }

  lemma FoundIffExists(songs: seq<Song>, ids: seq<int>, id: int)
    requires id in ids
    ensures SongWithId(SongsWithIds(songs, ids), id).None? <==> forall k :: 0 <= k < |songs| ==> songs[k].id != id
  {
    var found := SongsWithIds(songs, ids);
    if SongWithId(found, id).None? {
      forall k | 0 <= k < |songs| ensures songs[k].id != id {
        assert songs[k] in songs;
      }
    }
  }

  /** `{ ...song, favoriteCount }`; `song` is missing when no row has the id. */
  datatype RankEntry = RankEntry(song: Option<Song>, favoriteCount: nat)

  /** Each group joined with the song of its id, looked up among the songs with a ranked id. */
  function JoinSongs(gs: seq<Group>, songs: seq<Song>): (r: seq<RankEntry>)
    ensures |r| == |gs|
    ensures forall i :: 0 <= i < |r| ==>
      && r[i].favoriteCount == gs[i].count
      && (r[i].song.Some? ==> r[i].song.value in songs && r[i].song.value.id == gs[i].songId)
      && (r[i].song.None? <==> forall k :: 0 <= k < |songs| ==> songs[k].id != gs[i].songId)
  {
    var ids := seq(|gs|, i requires 0 <= i < |gs| => gs[i].songId);
    var found := SongsWithIds(songs, ids);
    assert forall i :: 0 <= i < |gs| ==> gs[i].songId in ids by {
      forall i | 0 <= i < |gs| ensures gs[i].songId in ids {
        assert ids[i] == gs[i].songId;
      }
    }
    forall i | 0 <= i < |gs|
      ensures SongWithId(found, gs[i].songId).None? <==> forall k :: 0 <= k < |songs| ==> songs[k].id != gs[i].songId
    {
      FoundIffExists(songs, ids, gs[i].songId);
    }
    seq(|gs|, i requires 0 <= i < |gs| => RankEntry(SongWithId(found, gs[i].songId), gs[i].count))
  }

  /**
   * The rank list for the favorites of one window: one entry for each of the (at most 50) most
   * favorited songs, each song once, counts never increasing, and no song left out favorited
   * more often than a song listed.
   */
  function RankFor(window: seq<Favorite>, songs: seq<Song>): (r: seq<RankEntry>)
    ensures |r| == |RankGroups(window)|
    ensures forall i :: 0 <= i < |r| ==>
      var id := RankGroups(window)[i].songId;
      && r[i].favoriteCount == CountFor(window, id) > 0
      && (r[i].song.Some? ==> r[i].song.value in songs && r[i].song.value.id == id)
      && (r[i].song.None? <==> forall k :: 0 <= k < |songs| ==> songs[k].id != id)
    ensures forall i, j :: 0 <= i < j < |r| ==> RankGroups(window)[i].songId != RankGroups(window)[j].songId
    ensures forall i, j :: 0 <= i < j < |r| ==> r[i].favoriteCount >= r[j].favoriteCount
    ensures forall id, i :: CountFor(window, id) > 0 && NoGroupFor(RankGroups(window), id) && 0 <= i < |r| ==>
      CountFor(window, id) <= r[i].favoriteCount
  {
    var gs := RankGroups(window);
    var r := JoinSongs(gs, songs);
    assert forall i :: 0 <= i < |gs| ==> gs[i] in gs;
    JoinedCountsDescend(gs, r);
    r
  }

  /** Entries carrying the counts of groups sorted by count are sorted by count too. */
  lemma JoinedCountsDescend(gs: seq<Group>, r: seq<RankEntry>)
    requires SortedDesc(gs, GroupCount)
    requires |r| == |gs| && forall i :: 0 <= i < |r| ==> r[i].favoriteCount == gs[i].count
    ensures forall i, j :: 0 <= i < j < |r| ==> r[i].favoriteCount >= r[j].favoriteCount
  {
    forall i, j | 0 <= i < j < |r|
      ensures r[i].favoriteCount >= r[j].favoriteCount
    {
      assert GroupCount(gs[i]) >= GroupCount(gs[j]);
    }
  }

  /**
   * `getFavoriteRank`: the rank list of the favorites created inside the requested window, one
   * entry for each of its (at most 50) most favorited songs, with counts taken over the window.
   */
  function FavoriteRank(favorites: seq<Favorite>, songs: seq<Song>, kind: Option<string>, now: Moment): (r: seq<RankEntry>)
    requires ValidMoment(now)
    ensures var w := InWindow(favorites, RankWindow(kind, now));
      |r| == if |SongIds(w)| <= RankSize then |SongIds(w)| else RankSize
    ensures var w := InWindow(favorites, RankWindow(kind, now));
      forall i :: 0 <= i < |r| ==>
        var id := RankGroups(w)[i].songId;
        && r[i].favoriteCount == CountFor(w, id) > 0
        && (r[i].song.Some? ==> r[i].song.value in songs && r[i].song.value.id == id)
        && (r[i].song.None? <==> forall k :: 0 <= k < |songs| ==> songs[k].id != id)
    ensures var w := InWindow(favorites, RankWindow(kind, now));
      forall id, i :: CountFor(w, id) > 0 && NoGroupFor(RankGroups(w), id) && 0 <= i < |r| ==> CountFor(w, id) <= r[i].favoriteCount
    ensures forall i :: 0 <= i < |r| ==> 0 < r[i].favoriteCount <= |favorites|
  {
    var window := InWindow(favorites, RankWindow(kind, now));
    WindowNoLarger(favorites, RankWindow(kind, now));
    assert forall i :: 0 <= i < |RankGroups(window)| ==> CountFor(window, RankGroups(window)[i].songId) <= |window|;
    RankFor(InWindow(favorites, RankWindow(kind, now)), songs)
  }
}
