/**
 * The database the server controllers talk to, as in-memory tables: rows in insertion order,
 * with the uniqueness constraints the schema declares (primary keys, the unique username and
 * the unique `(userId, songId)` favorite key), and the lookups the controllers issue.
 */
module Db {

  import opened Wrappers
  import opened Seqs

  /**
   * A point in time, at the resolution the controllers compare times: the calendar year, the
   * month as JavaScript numbers it (0 for January) and the offset within that month
   * (0 is the first instant of the 1st).
   */
  datatype Moment = Moment(year: int, month: int, offset: nat)

  predicate ValidMoment(m: Moment) {
    0 <= m.month < 12
  }

  /** Chronological order on valid moments. */
  predicate Before(a: Moment, b: Moment) {
    a.year < b.year || (a.year == b.year && (a.month < b.month || (a.month == b.month && a.offset < b.offset)))
  }

  predicate AtOrAfter(a: Moment, b: Moment) {
    !Before(a, b)
  }

  datatype Song = Song(
    id: int,
    title: string,
    artist: string,
    album: Option<string>,
    url: string,
    cover: Option<string>,
    lrcUrl: Option<string>,
    isDeleted: bool)

  datatype User = User(
    id: int,
    username: string,
    password: string,   // the stored bcrypt hash
    role: string,
    nickname: Option<string>,
    avatar: Option<string>,
    bio: Option<string>,
    gender: Option<string>,
    birthday: Option<string>,
    region: Option<string>,
    createdAt: Moment)

  datatype Favorite = Favorite(userId: int, songId: int, createdAt: Moment)

  /** The role the schema gives a new user. */
  const DefaultRole: string := "user"

  predicate UniqueSongIds(rows: seq<Song>) {
    forall i, j :: 0 <= i < j < |rows| ==> rows[i].id != rows[j].id
  }

  /** `id` is the primary key and `username` is unique. */
  predicate UniqueUsers(rows: seq<User>) {
    forall i, j :: 0 <= i < j < |rows| ==> rows[i].id != rows[j].id && rows[i].username != rows[j].username
  }

  /** `@@unique([userId, songId])` */
  predicate UniqueFavorites(rows: seq<Favorite>) {
    forall i, j :: 0 <= i < j < |rows| ==>
      (rows[i].userId, rows[i].songId) != (rows[j].userId, rows[j].songId)
  }

  /** `findUnique({ where: { username } })` */
  function UserNamed(rows: seq<User>, username: string): (u: Option<User>)
    ensures u.Some? ==> u.value in rows && u.value.username == username
    ensures u.None? ==> forall k :: 0 <= k < |rows| ==> rows[k].username != username
  {
    FindFirst(rows, UsernameOf, username)
  }

  function UsernameOf(u: User): string {
    u.username
  }

  function UserIdOf(u: User): int {
    u.id
  }

  function SongIdOf(s: Song): int {
    s.id
  }

  /** `findUnique({ where: { id } })` */
  function UserWithId(rows: seq<User>, id: int): (u: Option<User>)
    ensures u.Some? ==> u.value in rows && u.value.id == id
    ensures u.None? ==> forall k :: 0 <= k < |rows| ==> rows[k].id != id
  {
    FindFirst(rows, UserIdOf, id)
  }

  /** The first song with the given id, as `Array.prototype.find` returns it. */
  function SongWithId(rows: seq<Song>, id: int): (s: Option<Song>)
    ensures s.Some? ==> s.value in rows && s.value.id == id
    ensures s.None? ==> forall k :: 0 <= k < |rows| ==> rows[k].id != id
  {
    FindFirst(rows, SongIdOf, id)
  }

  /** Some row holds the favorite key `(userId, songId)`. */
  predicate HasFavorite(rows: seq<Favorite>, userId: int, songId: int) {
    exists k :: 0 <= k < |rows| && rows[k].userId == userId && rows[k].songId == songId
  }

  /** The user table, with the autoincrement counter for new ids. */
  class UserTable {
    var rows: seq<User>
    var nextId: int

    predicate Valid()
      reads this
    {
      UniqueUsers(rows) && (forall k :: 0 <= k < |rows| ==> rows[k].id < nextId) && nextId >= 1
    }

    constructor ()
      ensures Valid() && rows == [] && nextId == 1
    {
      rows := [];
      nextId := 1;
    }

    /** `prisma.user.create`: the new row takes the next id. */
    method Create(username: string, password: string, avatar: Option<string>, now: Moment) returns (u: User)
      requires Valid() && UserNamed(rows, username).None?
      modifies this
      ensures Valid()
      ensures u == User(old(nextId), username, password, DefaultRole, None, avatar, None, None, None, None, now)
      ensures rows == old(rows) + [u] && nextId == old(nextId) + 1
    {
      u := User(nextId, username, password, DefaultRole, None, avatar, None, None, None, None, now);
      rows := rows + [u];
      nextId := nextId + 1;
    }
  }

  /** The favorite table. */
  class FavoriteTable {
    var rows: seq<Favorite>

    predicate Valid()
      reads this
    {
      UniqueFavorites(rows)
    }

    constructor ()
      ensures Valid() && rows == []
    {
      rows := [];
    }
  }

  /** The song table. */
  class SongTable {
    var rows: seq<Song>

    predicate Valid()
      reads this
    {
      UniqueSongIds(rows)
    }

    constructor (rows: seq<Song>)
      ensures this.rows == rows
    {
      this.rows := rows;
    }
  }
}
