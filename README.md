# vue-the-music, modelled in Dafny

vue-the-music is a music player. A Vue client (lyrics display, router, Pinia stores, an axios
request client) talks to an Express server (JWT authentication middleware, multer uploads, and
controllers for songs, albums, favorites, user profiles and accounts over a Prisma database). A
separate script imports lyric files into the song table.

This project models the decision and data-shaping logic of that core and proves what it promises:

- **LRC parsing.** The lyric parser scans each line for its first `[mm:ss.ff]` or `[mm:ss.fff]` tag,
  converts it to integer milliseconds, strips that tag and trims the text.
- **Route guard.** The guard decides between a login redirect, a home redirect and proceeding.
- **Request client.** It adds the bearer header, unwraps 2xx responses and maps every error to one
  message, including when it logs the user out.
- **Server middleware.** Two authentication middlewares and the upload filters are modelled.
- **Controllers.** Register and login, profile read and update, favorite toggling, my-favorites and
  the favorite rank, the song listing and the album overview.
- **Client stores.** The auth, album and player stores, and the song API's request builders.
- **Lyrics import.** The script's loop: the `.lrc` filter, the title match, the `lrcUrl` update and
  the counters.

Database tables are sequences of records: `Db.UserTable`, `Db.FavoriteTable` and `Db.SongTable`
are classes whose methods change the rows. Some things are parameters with no behaviour of their
own:

- bcrypt, jwt, `Date.now()` and `Math.random()`;
- the outcome of every network request;
- the file system.

Shared helpers model the JavaScript and Node behaviour the code relies on:

- `Text`: `split`, `trim`, `toLowerCase` on ASCII, `includes`, and decimal printing;
- `PathUtil`: `path.extname` and `path.parse().name`;
- `Sorting`: a descending insertion sort, an in-place one on an `array`, and the top `n` of a sorted list;
- `Seqs`: the first element with a given key (`find`, `findUnique`), and order-preserving selection (`Subsequence`), the shape of every filter without `orderBy`.

Where the source code and its own comments disagree, the model follows the code:

- The LRC tag pattern is not anchored, so the tag may sit anywhere in the line, not only at its
  start. `LrcParse.TagInsideLine` shows this.
- `parseLrc`'s doc comment says the result is sorted by time. The code keeps input order
  (`LrcParse.CollectInInputOrder`, `LrcParse.OutputNotSortedByTime`).
- The favorite rank joins songs by id without looking at `isDeleted`, so deleted songs can be
  ranked.

## Model

| member | source | states |
|---|---|---|
| LrcParse.TagAt | src/utils/lrc-parse.ts:17 | a tag is recognised at position i exactly when the characters there are `[`, two digits, `:`, two digits, `.`, two or three digits, `]`; its fields are those digits |
| LrcParse.FindTag | src/utils/lrc-parse.ts:17-21 | the tag found is the leftmost match in the line, no match exists anywhere when none is found |
| LrcParse.ParseLine | src/utils/lrc-parse.ts:20-38 | a line the loop keeps has non-empty, trimmed text and a time of at most 99:99.999 |
| LrcParse.ParseLineMeaning | src/utils/lrc-parse.ts:20-38 | a line without a tag gives nothing; otherwise the time is that of the first tag, the text is the line with that tag cut out and trimmed, and the line is kept exactly when that text is not all whitespace |
| LrcParse.Collect | src/utils/lrc-parse.ts:19-39 | at most one entry per line |
| LrcParse.CollectDisplayable | src/utils/lrc-parse.ts:33-38 | every entry has non-empty, trimmed text and a time of at most 99:99.999 |
| LrcParse.ParseLrc | src/utils/lrc-parse.ts:11-42 | the loop over the `'\n'`-separated lines returns exactly `Collect` of them; it is total |
| LrcParse.CollectInInputOrder | src/utils/lrc-parse.ts:19-39 | every entry comes from a distinct line, in strictly increasing line order, and every line that parses contributes its entry; nothing is sorted |
| LrcParse.TaglessLineDropped | src/utils/lrc-parse.ts:20-21 | a line with no tag at any position contributes nothing |
| LrcParse.TagOnlyLineDropped | src/utils/lrc-parse.ts:33-38 | a line whose text after the tag is all whitespace contributes nothing |
| LrcParse.FractionWidthAgnostic | src/utils/lrc-parse.ts:26-30 | a two-digit fraction `ff` and the three-digit fraction `ff0` give the same time |
| LrcParse.TimeAsSeconds | src/utils/lrc-parse.ts:30 | the integer milliseconds divided by 1000 equal the source's `min*60 + sec + ms/1000` |
| LrcParse.OnlyFirstTagRemoved | src/utils/lrc-parse.ts:33 | after a leading `[00:ss.00]` tag a second tag is not removed: it starts the text (`[00:01.00][00:05.00]la` gives 1000 ms and `[00:05.00]la`) |
| LrcParse.SecondsCue | src/utils/lrc-parse.ts:20-38 | a line led by `[00:ss.00]` with trimmed text after it is cued at ss seconds, whatever the digits, with that text |
| LrcParse.TagInsideLine | src/utils/lrc-parse.ts:17-33 | after any text without a `[`, a two-digit tag is the one found; the line's time is that tag's and its text is the rest of the line around the tag, trimmed |
| LrcParse.SecondsNotRangeChecked | src/utils/lrc-parse.ts:24-30 | a line led by `[00:75.00]` is cued at 75000 ms, the same time as `[01:15.00]` |
| LrcParse.OutputNotSortedByTime | src/utils/lrc-parse.ts:9-41 | two lines led by `[00:ss.00]` tags come out in input order with their own times, so a later cue before an earlier one stays first |
| Router.RouteNamed | src/router/index.ts:6-59 | the route found has that name; none found means no route has it |
| Router.Guard | src/router/index.ts:62-77 | redirect to login iff there is no token and the target is not login; redirect to home iff there is a token and the target is login; proceed in every other case; exactly one decision |
| Router.RedirectTargetPasses | src/router/index.ts:66-76 | the redirect target passes the guard under the same token: no redirect loop |
| Router.RouteTableWellFormed | src/router/index.ts:7-58 | route names are distinct and both `home` and `login` resolve |
| Request.WithBearer | src/utils/request.ts:27-31 | `Authorization` is `Bearer <token>` when the token is truthy; otherwise the headers are unchanged; other headers are kept |
| Request.ErrorMessage | src/utils/request.ts:49-80 | the message for 401 on and off the login URL, 403, 404, 500, other statuses with and without a server message, and no response |
| Request.Settle | src/utils/request.ts:39-90 | a 2xx response resolves to its data exactly; every other outcome rejects with the computed, non-empty message |
| Request.Service.constructor | src/utils/request.ts:8-9 | the token getter returns null and no logout has happened |
| Request.Service.InitRequest | src/utils/request.ts:12-15 | installs the token getter |
| Request.Service.InterceptRequest | src/utils/request.ts:25-32 | the config's headers become `WithBearer` of the old headers and the current token |
| Request.Service.InterceptResponse | src/utils/request.ts:39-91 | settles as `Settle`; logout is called once exactly for a 401 off the login URL |
| Request.LoginFailureKeepsSession | src/utils/request.ts:54-63 | a 401 logs out iff the URL is not the login URL, and then the message is the session-expired one |
| AuthMiddleware.Authenticate | server/src/middleware/auth.middleware.ts:19-52 | no header gives 未提供认证令牌; no token field ([1] of the space split) gives 令牌格式错误; it accepts iff the token verifies, with the id and username of the claims; otherwise 无效或过期的令牌 |
| AuthMiddleware.Authenticated | server/src/middleware/auth.middleware.ts:19-52 | either `next` is called once with `req.user` set, or a 401 is sent and `next` is not called |
| AuthMiddleware.OptionallyAuthenticated | server/src/middleware/auth.middleware.ts:55-81 | `next` is called once and nothing is sent; `req.user` is set only when the token verifies and is unchanged otherwise |
| AuthMiddleware.TokenFieldOfSchemeAndToken | server/src/middleware/auth.middleware.ts:30 | `<scheme> <token>` yields the token, whatever the scheme word |
| AuthMiddleware.TokenFieldStopsAtSpace | server/src/middleware/auth.middleware.ts:30 | the token field ends at the next space |
| AuthMiddleware.NoSpaceIsMalformed | server/src/middleware/auth.middleware.ts:30-35 | a non-empty header without a space is a malformed token |
| UploadMiddleware.Destination | server/src/middleware/upload.middleware.ts:17-22 | the covers directory iff the field is `cover`; the songs directory otherwise |
| UploadMiddleware.FileFilter | server/src/middleware/upload.middleware.ts:34-53 | a cover is admitted iff its type starts with `image/`; a song file iff `audio/...` or `application/octet-stream`; other fields are refused with 未知的文件字段; each refusal carries its message |
| UploadMiddleware.UniqueSuffix | server/src/middleware/upload.middleware.ts:28 | the suffix is non-empty and contains no dot |
| UploadMiddleware.StoredFilename | server/src/middleware/upload.middleware.ts:27-30 | the stored name starts with the suffix and ends with the original name's extension |
| UploadMiddleware.StoredFilenameKeepsExtension | server/src/middleware/upload.middleware.ts:27-30 | the stored name's extension is the original name's |
| PathUtil.Extname | server/src/middleware/upload.middleware.ts:29 | `path.extname`: a suffix of the name, empty or a dot followed by no further dot, empty for names without a dot or whose only dot leads |
| PathUtil.ParseName | server/src/update_lyrics.ts:46 | the stem followed by the extension is the name |
| PathUtil.ExtnameOfStemAndExt | server/src/update_lyrics.ts:46 | `stem.ext` has extension `.ext` and stem `stem` |
| PathUtil.ExtnameAfterDotFreePrefix | server/src/controllers/user.controller.ts:21-24 | prefixing a dot-free text keeps the extension |
| Db.UserNamed | server/src/controllers/auth.controller.ts:21-23 | `findUnique({ username })`: the row with that name, or none has it |
| Db.UserWithId | server/src/controllers/user.controller.ts:52-65 | `findUnique({ id })`: the row with that id, or none has it |
| Db.SongWithId | server/src/controllers/favorite.controller.ts:129-135 | the song with that id, or none has it |
| Db.UserTable.Create | server/src/controllers/auth.controller.ts:35-42 | appends one user with the next id, the default role and the given fields; ids and usernames stay unique |
| AuthController.Secret | server/src/controllers/auth.controller.ts:7 | `JWT_SECRET` when set and non-empty, else the built-in secret |
| AuthController.Register | server/src/controllers/auth.controller.ts:11-54 | an empty or missing username or password gives 400 and no change; a taken name gives 400 用户名已存在 and no change; otherwise one user is appended with the hashed password and the default avatar, and 201 returns only id, username and avatar |
| AuthController.Login | server/src/controllers/auth.controller.ts:57-101 | accepted iff the user exists and the password compares; the token signs {userId, username, role} for 24h and the reply's user has no password; unknown user and wrong password both give 401 用户名或密码错误 |
| AuthController.UnknownUserLooksLikeWrongPassword | server/src/controllers/auth.controller.ts:65-76 | the replies for an unknown user and a wrong password are identical |
| AuthController.UserNamedAfterAppend | server/src/controllers/auth.controller.ts:35-42 | after appending a user with a fresh name, looking that name up finds the new user |
| AuthController.RegisteredUserCanLogIn | server/src/controllers/auth.controller.ts:32-96 | a user just registered logs in with the same password |
| UserController.ProfileOf | server/src/controllers/user.controller.ts:52-65 | the profile carries every selected column and no password |
| UserController.GetProfile | server/src/controllers/user.controller.ts:46-77 | 404 用户不存在 iff no row has the id; otherwise the row's profile |
| UserController.AsField | server/src/controllers/user.controller.ts:86-92 | a body value is copied as it is: undefined, null or its text |
| UserController.Draft | server/src/controllers/user.controller.ts:86-97 | the draft holds the five whitelisted keys, plus birthday only when the body's birthday is truthy |
| UserController.Defined | server/src/controllers/user.controller.ts:100-102 | exactly the draft's keys whose value is not undefined, with their values |
| UserController.DeleteUndefined | server/src/controllers/user.controller.ts:100-102 | the in-place deletion loop leaves exactly `Defined` of the draft |
| UserController.DefinedDraftIsUpdateData | server/src/controllers/user.controller.ts:83-102 | the update data's keys are whitelisted, never username, password or role; a kept key keeps its value, null and '' included |
| UserController.BuildUpdateData | server/src/controllers/user.controller.ts:86-102 | the update data built from the body meets that description and holds no undefined value |
| UserController.ApplyUpdate | server/src/controllers/user.controller.ts:104-106 | each whitelisted column the data names takes the data's value (null clears it, a date keeps its text), every column the data does not name keeps its value; id, username, password, role and creation time are never changed; an empty update changes nothing |
| UserController.UpdateRows | server/src/controllers/user.controller.ts:104-106 | only the row with the id changes |
| UserController.UpdateProfile | server/src/controllers/user.controller.ts:80-126 | a missing user gives 500 and no change; otherwise the row is updated with data built from the body, and the reply user has no password |
| UserController.EmptyBodyChangesNothing | server/src/controllers/user.controller.ts:100-106 | no defined value leaves the user unchanged |
| UserController.FalsyBirthdayIgnored | server/src/controllers/user.controller.ts:95-97 | a null or empty birthday is never written |
| UserController.NullClears | server/src/controllers/user.controller.ts:86-102 | every whitelisted field the body sends as null clears its column |
| UserController.WrittenAsSent | server/src/controllers/user.controller.ts:86-106 | every whitelisted column ends as the body sent it: unchanged when absent, cleared by null, the text when given; a truthy birthday is stored as its text |
| UserController.AvatarFilter | server/src/controllers/user.controller.ts:31-37 | admitted iff the type starts with `image/`, otherwise refused with 只允许上传图片文件 |
| UserController.UserIdPart | server/src/controllers/user.controller.ts:21 | the id in decimal, or `unknown` for no id or id 0 |
| UserController.AvatarFilename | server/src/controllers/user.controller.ts:17-24 | the name is `avatar-`, then the user part (the id or `unknown`), then `-`, then the suffix, then the original name's extension, each at its position and nothing else |
| UserController.AvatarKeepsExtension | server/src/controllers/user.controller.ts:21-24 | the avatar file keeps the original name's extension |
| UserController.HandleAvatarUpload | server/src/controllers/user.controller.ts:129-144 | no file gives 400 未上传文件; otherwise the URL is `/avatars/<filename>` |
| FavoriteController.PairsAreFavorites | server/src/controllers/favorite.controller.ts:21-50 | a pair is in the pair set iff a favorite row has it |
| FavoriteController.Without | server/src/controllers/favorite.controller.ts:35-37 | removes every row of that pair and keeps all others; uniqueness is kept |
| FavoriteController.Toggled | server/src/controllers/favorite.controller.ts:30-50 | the pair's membership flips; uniqueness is kept; every other pair is unchanged |
| FavoriteController.WithoutKeepsOthers | server/src/controllers/favorite.controller.ts:35-37 | rows of other users or songs stay |
| FavoriteController.ToggleTwiceRestoresPairs | server/src/controllers/favorite.controller.ts:21-50 | toggling the same pair twice restores the pair set |
| FavoriteController.ToggleFavorite | server/src/controllers/favorite.controller.ts:5-55 | no user gives 401 and no falsy song id gives 400, both with the table unchanged; adding a favorite for a song no row has fails the create, which gives 500 操作失败 with the table unchanged; otherwise the table is toggled and the reply flag is membership after the call; every favorite's song still exists afterwards |
| FavoriteController.WithoutKeepsSongsExist | server/src/controllers/favorite.controller.ts:31-38 | deleting a favorite leaves every remaining favorite's song in the song table |
| FavoriteController.OwnFavorites | server/src/controllers/favorite.controller.ts:66-71 | an order-preserving selection of the table holding each of the user's rows as often as the table does and no other row |
| FavoriteController.MyFavorites | server/src/controllers/favorite.controller.ts:66-81 | one item per favorite of the user, with its song, `isFavorited` true and the favorite's time |
| FavoriteController.GetMyFavorites | server/src/controllers/favorite.controller.ts:58-88 | no user gives 401; otherwise the user's list |
| FavoriteController.FirstOfNextMonth | server/src/controllers/favorite.controller.ts:100 | the first of the next month, December rolling into the next January |
| FavoriteController.RankWindow | server/src/controllers/favorite.controller.ts:94-108 | month: this month to the next; year: this January to the next; otherwise the epoch to 9999-01-01; the start is always before the end |
| FavoriteController.WindowsNest | server/src/controllers/favorite.controller.ts:98-108 | a moment in this month's window is in this year's, and that one is in the total window |
| FavoriteController.InWindow | server/src/controllers/favorite.controller.ts:112-116 | exactly the favorites created in the window |
| FavoriteController.WindowNoLarger | server/src/controllers/favorite.controller.ts:112-116 | the windowed favorites are no more than all favorites |
| FavoriteController.CountFor | server/src/controllers/favorite.controller.ts:110-127 | `_count.songId` of a group: the number of favorites of that song |
| FavoriteController.SongIds | server/src/controllers/favorite.controller.ts:110-127 | the distinct song ids in the favorites |
| FavoriteController.Groups | server/src/controllers/favorite.controller.ts:110-120 | one group per favorited song, no song twice, each with its count |
| FavoriteController.RankGroups | server/src/controllers/favorite.controller.ts:110-127 | as many groups as favorited songs, up to 50; by count largest first; each with its count; no song twice; no favorited song left out has more favorites than a song kept |
| FavoriteController.RankGroupsAreTop | server/src/controllers/favorite.controller.ts:110-127 | the ranked groups are `groupBy` rows; no row left out has a larger count than a row kept; with at most 50 rows all of them are kept |
| FavoriteController.SongsWithIds | server/src/controllers/favorite.controller.ts:129-135 | the songs whose ids are asked for |
| FavoriteController.FoundIffExists | server/src/controllers/favorite.controller.ts:136-140 | a song is found for a group iff one with that id exists |
| FavoriteController.JoinSongs | server/src/controllers/favorite.controller.ts:136-140 | the list is the groups in order, each with its song (or none) and its count |
| FavoriteController.RankFor | server/src/controllers/favorite.controller.ts:110-140 | one entry per ranked group, in order: its count is the song's number of favorites in the window, its song is the song of that id (or none when no row has it); no song twice; counts never increase; a favorited song not ranked has no more favorites than any entry |
| FavoriteController.FavoriteRank | server/src/controllers/favorite.controller.ts:91-147 | over the favorites created inside the requested window: as many entries as favorited songs, up to 50; each entry's count is its song's number of favorites in the window, with the song of that id or none; a favorited song not ranked has no more favorites than any entry; every count is between 1 and the number of favorites |
| SongController.BuildWhere | server/src/controllers/song.controller.ts:11-27 | a song satisfies the `where` object iff it is not deleted, is in the album when one is asked for, and contains the search text in title, artist or album when one is given |
| SongController.ViewerId | server/src/controllers/song.controller.ts:37 | the caller's id, or 0 |
| SongController.Matching | server/src/controllers/song.controller.ts:29-31 | an order-preserving selection of the table holding each row that matches the `where` object as often as the table does and no other row |
| SongController.Select | server/src/controllers/song.controller.ts:29-51 | the views' songs are exactly the matching rows in table order, each flagged with whether the viewer favorited it |
| SongController.GetSongs | server/src/controllers/song.controller.ts:5-58 | the listed songs are an order-preserving selection of the table holding every listable row as often as the table does and no other; each is flagged iff the caller favorited it |
| SongController.AnonymousSeesNoFavorites | server/src/controllers/song.controller.ts:35-51 | with ids starting at 1, an anonymous listing flags nothing |
| SongController.AlbumNames | server/src/controllers/song.controller.ts:64-76 | the distinct names of the albums of non-deleted songs, null and '' excluded |
| SongController.AlbumCount | server/src/controllers/song.controller.ts:64-73 | the number of non-deleted songs of the album; positive iff it has one |
| SongController.Latest | server/src/controllers/song.controller.ts:85-98 | the album's song with the highest id |
| SongController.AlbumCover | server/src/controllers/song.controller.ts:101-109 | the cover of that song, or null when it is falsy |
| SongController.Summaries | server/src/controllers/song.controller.ts:101-111 | one summary per album name, with its count and cover |
| SongController.GetAlbums | server/src/controllers/song.controller.ts:61-121 | sorted by count, largest first, and a permutation of the summaries; no albums gives [] |
| SongController.AlbumsListedOnce | server/src/controllers/song.controller.ts:101-114 | every album appears exactly once in the overview |
| Sorting.Insert | server/src/controllers/song.controller.ts:114 | inserting into a sorted list keeps it sorted and adds exactly one element |
| Sorting.SortDesc | server/src/controllers/song.controller.ts:114 | sorted by key, largest first, and a permutation of the input |
| Sorting.SortDescInPlace | server/src/controllers/song.controller.ts:114 | `result.sort` in place: the array ends sorted largest first and is a permutation of its old contents |
| Sorting.TakeAtMost | server/src/controllers/favorite.controller.ts:126 | `take: 50`: the first n elements when there are more, or all |
| Sorting.PrefixIsTop | server/src/controllers/favorite.controller.ts:121-126 | of a list sorted largest first, nothing past the first n has a larger key than anything kept |
| Sorting.Top | server/src/controllers/favorite.controller.ts:121-126 | `orderBy desc, take: n`: as many as there are up to n, sorted largest first, all from the input, all of the input when it is no longer than n, and nothing left out has a larger key than anything taken |
| Sorting.TopKeepsDistinct | server/src/controllers/favorite.controller.ts:110-126 | the top n of a list without repeated keys has no repeated keys |
| Sorting.PermutationKeepsDistinct | server/src/controllers/song.controller.ts:114 | a permutation of a list with distinct keys has distinct keys |
| AuthStore.Store.constructor | src/stores/auth.ts:9-10 | the store starts logged out |
| AuthStore.Store.Login | src/stores/auth.ts:13-39 | posts the credentials; a truthy token and a present user in the response replace the state; success returns true; failure rethrows with the state unchanged |
| AuthStore.Store.Register | src/stores/auth.ts:42-61 | posts the credentials, returns true or rethrows, never touches the session |
| AuthStore.Store.Logout | src/stores/auth.ts:64-69 | token '' and user null |
| AuthStore.Store.FetchUserProfile | src/stores/auth.ts:71-78 | the fetched user replaces the old one; a failure is swallowed and the user kept |
| AuthStore.Store.UpdateUserProfile | src/stores/auth.ts:81-99 | puts the partial profile to `/user/profile` as the body; the user is replaced only when the response carries one; a failure rethrows with the user kept |
| AlbumStore.AlbumQuery | src/stores/album.ts:33-35 | the query is exactly `album = albumName` |
| AlbumStore.Store.FetchAlbums | src/stores/album.ts:14-27 | with a cached list and no force: no request and no change; otherwise one request, the list replaced on success and kept on failure, and the loading flag cleared |
| AlbumStore.Store.FetchAlbumSongs | src/stores/album.ts:29-42 | clears the songs, requests the album's songs, shows them on success and leaves [] on failure; the loading flag ends cleared |
| AlbumStore.AlbumQueryFiltersByAlbum | src/stores/album.ts:33-35 | on the server, the query selects exactly the non-deleted songs of that album |
| PlayerStore.Store.PlaySong | src/stores/player.ts:12-14 | the current song becomes the argument; nothing else changes |
| PlayerStore.Store.FetchSongList | src/stores/player.ts:16-39 | with a cached list and no force: nothing; otherwise one request, a parsed body replaces the list whatever the status, a thrown error keeps it, and the loading flag ends cleared |
| SongsApi.BuildUploadForm | src/api/songs.ts:20-38 | `file` first; cover, title, artist and album exactly when truthy, in that order, each with its value |
| SongsApi.AppendField | src/api/songs.ts:23-34 | one conditional append keeps the order and records the key exactly when its value is truthy |
| SongsApi.UploadKeysDistinct | src/api/songs.ts:21-34 | each key appears at most once, at most five fields |
| SongsApi.RecordPlay | src/api/songs.ts:40-42 | a POST to `/songs/<id>/play` |
| SongsApi.RecordPlayUrlNamesSong | src/api/songs.ts:41 | the URL's segments are `songs`, the decimal id and `play`, and the id segment reads back as the id |
| SongsApi.GetPlayRank | src/api/songs.ts:44-46 | a GET of `/songs/rank` with `type`, defaulting to `total` |
| SongsApi.SearchParams | src/api/songs.ts:16-18 | exactly the present fields of the input, with their values |
| SongsApi.FetchSearchSongs | src/api/songs.ts:16-18 | a GET of `/songs` with those parameters |
| UpdateLyrics.LrcFiles | server/src/update_lyrics.ts:35 | an order-preserving selection of the listing holding each name whose lower-case form ends in `.lrc` as often as listed, and no other name |
| UpdateLyrics.LyricsUrl | server/src/update_lyrics.ts:67 | `/lyrics/` followed by the file name |
| UpdateLyrics.FirstWithTitle | server/src/update_lyrics.ts:60-64 | the first row with the title, deleted or not; none when no row has it |
| UpdateLyrics.SetLrcUrl | server/src/update_lyrics.ts:68-71 | the rows with the id get the new `lrcUrl`; all others are kept |
| UpdateLyrics.UpdateLyrics | server/src/update_lyrics.ts:23-78 | a missing source directory returns at once with no change; otherwise the table and counters are those of `Process` over the lyrics files |
| UpdateLyrics.ImportFiles | server/src/update_lyrics.ts:38-78 | the loop over the files, from zero counters, ends with the table and counters of `Process` |
| UpdateLyrics.ImportFile | server/src/update_lyrics.ts:42-77 | one file: a failed copy changes nothing; otherwise the first song of the file's title gets `/lyrics/<file>` and `updated` grows by one, or `notFound` does when there is none |
| UpdateLyrics.CountsAddUp | server/src/update_lyrics.ts:38-78 | every copied file increments exactly one counter; a failed copy increments none; the sum is at most the number of files |
| UpdateLyrics.AllCopiedAllCounted | server/src/update_lyrics.ts:49-77 | when every copy succeeds, the counters add up to the number of files |
| UpdateLyrics.ProcessChangesOnlyLyrics | server/src/update_lyrics.ts:60-77 | only `lrcUrl` changes, only for the first song of a title, and only to `/lyrics/<file>` of a copied file whose stem is that title |
| Text.Trim | src/utils/lrc-parse.ts:33 | `trim`: the longest trimmed middle of the text |
| Text.Split | src/utils/lrc-parse.ts:12 | `split`: at least one piece, none containing the separator |
| Text.JoinSplit | src/utils/lrc-parse.ts:12 | joining the pieces with the separator gives back the text |
| Text.SplitJoin | src/utils/lrc-parse.ts:12 | splitting a join of separator-free pieces gives back the pieces |
| Text.ToLower | server/src/update_lyrics.ts:35 | `toLowerCase` on ASCII letters, character by character |
| Text.IntToString | server/src/controllers/user.controller.ts:21 | decimal printing: non-empty, a leading `-` exactly for negatives |
| Text.DecimalValueOfNatToString | src/api/songs.ts:41 | the printed digits read back as the number |

## Left out

- I/O: file reads and writes, directory creation, the copy itself and `console` logging are left out. Whether the lyrics source directory exists, its listing, and whether each copy succeeds are parameters of `UpdateLyrics.UpdateLyrics`.
- Crypto: bcrypt `hash`/`compare` and jwt `sign`/`verify` are function parameters with no properties of their own.
- Network: axios, `fetch` and `ElNotification` are left out. Each action receives how its request settled as a parameter, and the loading flags are not observable while a request is in flight.
- Concurrency: the interleaving of async actions is not modelled.
- Vue/Pinia: reactivity and the `persist` plugin are left out.
- The ORM engine: SQL `contains` case sensitivity, `groupBy` order among equal counts, and ordering by `createdAt` are not modelled. The listing, my-favorites and the lyrics import use table order.
- SongController.GetSongs: the source orders the listing by `createdAt`, newest first; the model lists in table order, which is that order only when the table is stored newest first.
- The route table: only names and paths are modelled, not components.
- Time: dates are (year, month, offset) moments, and time zones are ignored (the epoch window start is a constant). A birthday is stored as its text, because `new Date` parsing is not modelled.
- Body values: values other than undefined, null and strings are not modelled, nor is `Number(songId)` applied to a string.
- Uploads:
  - multer's size limits are left out;
  - file names are taken after the latin1-to-UTF-8 decoding, which is not modelled;
  - the `Date.now()` and `Math.random()` suffix parts are integer parameters.
- `path.extname` ignores directory separators: names are plain file names.
- Text.ToLower: does not model Unicode case mapping beyond ASCII letters, because there is no Unicode table here.
- LrcParse.TimeAsSeconds: times are integer milliseconds; the source's floating-point seconds are related through exact reals, not IEEE doubles.
- Song upload, play recording and the play rank on the server are not modelled: the routes import them, but song.controller.ts does not define them.
- Playback next/previous and favorite-flag syncing are not modelled, because the player store has only `playSong` and `fetchSongList`.
- The default role comes from the database schema and is modelled as the constant `user`.
- AuthController.Register: the table is unchanged on every failure; a database error (500) is not modelled.
- FavoriteController.FavoriteRank: stated on integer counts; the ORM's choice among songs with equal counts is not fixed.
- FavoriteController.ToggleFavorite: of the errors the handler catches, only the song foreign key on create is modelled; a user deleted after signing in (the user foreign key) and database failures are not.
- Request.Service.InitRequest: the logout handler is modelled as a count of calls. The client wires it to the auth store's `logout` (src/main.ts:33-35), so a 401 on the profile request clears the session before `fetchUserProfile`'s catch runs; the model does not connect the two stores.
- PlayerStore.Store.FetchSongList: the parsed body is a song list or nothing, so the server's error object `{ message }`, which the store would also store as the list, is not represented.
