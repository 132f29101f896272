/**
 * The profile endpoints (server/src/controllers/user.controller.ts): reading the profile,
 * updating the whitelisted profile fields, and the avatar upload's filter, file name and URL.
 */
module UserController {

  import opened Wrappers
  import opened Text
  import opened Db
  import opened PathUtil
  import opened UploadMiddleware

  const UserMissing: string := "用户不存在"
  const InternalError: string := "服务器内部错误"
  const Updated: string := "更新成功"
  const NoFile: string := "未上传文件"
  const Uploaded: string := "上传成功"
  const OnlyImages: string := "只允许上传图片文件"

  // ---------------------------------------------------------------- profile

  /** The selected user columns: everything except the password. */
  datatype Profile = Profile(
    id: int,
    username: string,
    nickname: Option<string>,
    role: string,
    avatar: Option<string>,
    bio: Option<string>,
    gender: Option<string>,
    birthday: Option<string>,
    region: Option<string>,
    createdAt: Moment)

  function ProfileOf(u: User): (p: Profile)
    ensures p.id == u.id && p.username == u.username && p.role == u.role && p.createdAt == u.createdAt
    ensures p.nickname == u.nickname && p.avatar == u.avatar && p.bio == u.bio
    ensures p.gender == u.gender && p.birthday == u.birthday && p.region == u.region
  {
    Profile(u.id, u.username, u.nickname, u.role, u.avatar, u.bio, u.gender, u.birthday, u.region, u.createdAt)
  }

  datatype ProfileReply = ProfileFailed(status: int, message: string) | ProfileFound(profile: Profile)

  /** `getProfile` for the authenticated user id: 404 when no row has it. */
  function GetProfile(rows: seq<User>, userId: int): (r: ProfileReply)
    ensures r.ProfileFailed? <==> (forall k :: 0 <= k < |rows| ==> rows[k].id != userId)
    ensures r.ProfileFailed? ==> r == ProfileFailed(404, UserMissing)
    ensures r.ProfileFound? ==> exists k :: 0 <= k < |rows| && rows[k].id == userId && r.profile == ProfileOf(rows[k])
  {
    match UserWithId(rows, userId)
    case None => ProfileFailed(404, UserMissing)
    case Some(u) => ProfileFound(ProfileOf(u))
  }

  // ---------------------------------------------------------------- profile update

  /** A value in the JSON request body; `Undefined` is a key the body does not have. */
  datatype JsonValue = Undefined | Null | Text(s: string)

  /** A value in `updateData`: a body value, or the `Date` built from the birthday text. */
  datatype FieldValue = Absent | NullValue | TextValue(s: string) | DateFrom(text: string)

  function BodyField(body: map<string, JsonValue>, key: string): JsonValue {
    if key in body then body[key] else Undefined
  }

  function AsField(v: JsonValue): (f: FieldValue)
    ensures f == Absent <==> v == Undefined
  {
    match v
    case Undefined => Absent
    case Null => NullValue
    case Text(s) => TextValue(s)
  }

  /** `!!birthday` */
  predicate TruthyJson(v: JsonValue) {
    v.Text? && v.s != ""
  }

  /** The fields copied from the body unconditionally, in the order the object literal lists them. */
  const CopiedKeys: seq<string> := ["nickname", "bio", "gender", "region", "avatar"]

  const BirthdayKey: string := "birthday"

  /** The keys of `updateData` before undefined values are removed. */
  function DraftKeys(body: map<string, JsonValue>): (keys: seq<string>)
    ensures forall i, j :: 0 <= i < j < |keys| ==> keys[i] != keys[j]
  {
    CopiedKeys + (if TruthyJson(BodyField(body, BirthdayKey)) then [BirthdayKey] else [])
  }

  /** The object literal, plus `birthday` when the body's birthday is truthy. */
  function Draft(body: map<string, JsonValue>): (d: map<string, FieldValue>)
    ensures forall k :: k in d <==> k in DraftKeys(body)
  {
    var d := map k | k in CopiedKeys :: AsField(BodyField(body, k));
    if TruthyJson(BodyField(body, BirthdayKey)) then d[BirthdayKey := DateFrom(BodyField(body, BirthdayKey).s)] else d
  }

  /**
   * What `updateProfile` writes: a whitelisted key is kept exactly when the body defines it, with
   * its value (null and '' included); `birthday` only when it is truthy, as a date. No other key
   * (username, password, role) is ever written.
   */
  predicate IsUpdateData(body: map<string, JsonValue>, data: map<string, FieldValue>) {
    && (forall k :: k in data ==> k in CopiedKeys || k == BirthdayKey)
    && (forall k :: k in CopiedKeys ==>
          (k in data <==> BodyField(body, k) != Undefined) && (k in data ==> data[k] == AsField(BodyField(body, k))))
    && (BirthdayKey in data <==> TruthyJson(BodyField(body, BirthdayKey)))
    && (BirthdayKey in data ==> data[BirthdayKey] == DateFrom(BodyField(body, BirthdayKey).s))
  }

  /** `updateData` without its undefined entries. */
  function Defined(d: map<string, FieldValue>): (r: map<string, FieldValue>)
    ensures forall k :: k in r <==> k in d && d[k] != Absent
    ensures forall k :: k in r ==> r[k] == d[k]
  {
    map k | k in d && d[k] != Absent :: d[k]
  }

  /** The `forEach` over the keys of `data` that deletes each undefined entry in place. */
  method DeleteUndefined(d: map<string, FieldValue>, keys: seq<string>) returns (data: map<string, FieldValue>)
    requires forall k :: k in d <==> k in keys
    requires forall i, j :: 0 <= i < j < |keys| ==> keys[i] != keys[j]
    ensures data == Defined(d)
  {
    data := d;
    var i := 0;
    while i < |keys|
      invariant 0 <= i <= |keys|
      invariant forall k :: k in data ==> k in d && data[k] == d[k]
      invariant forall j :: 0 <= j < i ==> (keys[j] in data <==> d[keys[j]] != Absent)
      invariant forall j :: i <= j < |keys| ==> keys[j] in data
    {
      if data[keys[i]] == Absent {
        data := data - {keys[i]};
      }
      i := i + 1;
    }
    assert forall k :: k in data <==> k in d && d[k] != Absent by {
      forall k | k in d
        ensures k in data <==> d[k] != Absent
      {
        var j :| 0 <= j < |keys| && keys[j] == k;
      }
    }
  }

  lemma DefinedDraftIsUpdateData(body: map<string, JsonValue>)
    ensures IsUpdateData(body, Defined(Draft(body)))
  {
    var d := Draft(body);
    assert BirthdayKey !in CopiedKeys;
    assert forall k :: k in CopiedKeys ==> k in d && d[k] == AsField(BodyField(body, k));
  }

  /** `updateProfile`'s data: the object literal with the birthday added, then its undefined entries deleted. */
  method BuildUpdateData(body: map<string, JsonValue>) returns (data: map<string, FieldValue>)
    ensures IsUpdateData(body, data)
    ensures forall k :: k in data ==> data[k] != Absent
  {
    var draft := Draft(body);
    data := DeleteUndefined(draft, DraftKeys(body));
    DefinedDraftIsUpdateData(body);
  }

  function OptionOf(f: FieldValue, current: Option<string>): Option<string> {
    match f
    case Absent => current
    case NullValue => None
    case TextValue(s) => Some(s)
    case DateFrom(text) => Some(text)
  }

  function Pick(data: map<string, FieldValue>, key: string, current: Option<string>): Option<string> {
    if key in data then OptionOf(data[key], current) else current
  }

  /** The profile column a whitelisted key names. */
  function Column(u: User, key: string): Option<string> {
    if key == "nickname" then u.nickname
    else if key == "bio" then u.bio
    else if key == "gender" then u.gender
    else if key == "region" then u.region
    else if key == "avatar" then u.avatar
    else if key == BirthdayKey then u.birthday
    else None
  }

  /**
   * The user row after `prisma.user.update` with `data`: each whitelisted column the data names
   * takes the data's value (null clears it), every other column keeps its value.
   */
  function ApplyUpdate(u: User, data: map<string, FieldValue>): (v: User)
    ensures v.id == u.id && v.username == u.username && v.password == u.password
    ensures v.role == u.role && v.createdAt == u.createdAt
    ensures forall k :: k in CopiedKeys || k == BirthdayKey ==>
      Column(v, k) == if k in data then OptionOf(data[k], Column(u, k)) else Column(u, k)
    ensures data == map[] ==> v == u
  {
    u.(nickname := Pick(data, "nickname", u.nickname),
       bio := Pick(data, "bio", u.bio),
       gender := Pick(data, "gender", u.gender),
       region := Pick(data, "region", u.region),
       avatar := Pick(data, "avatar", u.avatar),
       birthday := Pick(data, BirthdayKey, u.birthday))
  }

  function UpdateRows(rows: seq<User>, userId: int, data: map<string, FieldValue>): (r: seq<User>)
    ensures |r| == |rows|
    ensures forall k :: 0 <= k < |rows| ==> r[k] == if rows[k].id == userId then ApplyUpdate(rows[k], data) else rows[k]
  {
    seq(|rows|, k requires 0 <= k < |rows| => if rows[k].id == userId then ApplyUpdate(rows[k], data) else rows[k])
  }

  datatype UpdateReply = UpdateFailed(status: int, message: string) | UpdateDone(message: string, user: Profile)

  /**
   * `updateProfile`: writes the update data to the user's row. A missing row makes the update
   * throw, which the handler reports as 500; the table is then unchanged.
   */
  method UpdateProfile(users: UserTable, userId: int, body: map<string, JsonValue>) returns (r: UpdateReply)
    requires users.Valid()
    modifies users
    ensures users.Valid() && users.nextId == old(users.nextId)
    ensures UserWithId(old(users.rows), userId).None? ==>
      r == UpdateFailed(500, InternalError) && users.rows == old(users.rows)
    ensures UserWithId(old(users.rows), userId).Some? ==>
      exists data :: IsUpdateData(body, data)
        && users.rows == UpdateRows(old(users.rows), userId, data)
        && r == UpdateDone(Updated, ProfileOf(ApplyUpdate(UserWithId(old(users.rows), userId).value, data)))
  {
    var data := BuildUpdateData(body);
    var found := UserWithId(users.rows, userId);
    if found.None? {
      return UpdateFailed(500, InternalError);
    }
    users.rows := UpdateRows(users.rows, userId, data);
    r := UpdateDone(Updated, ProfileOf(ApplyUpdate(found.value, data)));
  }

  /** An empty body writes nothing; every profile column keeps its value. */
  lemma EmptyBodyChangesNothing(u: User, data: map<string, FieldValue>)
    requires IsUpdateData(map[], data)
    ensures ApplyUpdate(u, data) == u
  {
    assert forall k :: k in CopiedKeys ==> k !in data;
    assert data == map[];
  }

  /** A body with only a null or empty birthday never writes the birthday. */
  lemma FalsyBirthdayIgnored(body: map<string, JsonValue>, data: map<string, FieldValue>, u: User)
    requires IsUpdateData(body, data)
    requires !TruthyJson(BodyField(body, BirthdayKey))
    ensures ApplyUpdate(u, data).birthday == u.birthday
  {
  }

  /** Explicit nulls clear a column: `nickname: null` (or any whitelisted key set to null) empties it. */
  lemma NullClears(body: map<string, JsonValue>, data: map<string, FieldValue>, u: User)
    requires IsUpdateData(body, data)
    ensures forall k :: k in CopiedKeys && BodyField(body, k) == Null ==> Column(ApplyUpdate(u, data), k) == None
  {
  }

  /**
   * Every whitelisted column ends up as the body sent it: unchanged when absent, the text when
   * given; a truthy birthday is stored as the date of its text.
   */
  lemma WrittenAsSent(body: map<string, JsonValue>, data: map<string, FieldValue>, u: User)
    requires IsUpdateData(body, data)
    ensures forall k :: k in CopiedKeys ==>
      Column(ApplyUpdate(u, data), k) == match BodyField(body, k)
        case Undefined => Column(u, k)
        case Null => None
        case Text(t) => Some(t)
    ensures TruthyJson(BodyField(body, BirthdayKey)) ==>
      ApplyUpdate(u, data).birthday == Some(BodyField(body, BirthdayKey).s)
  {
  }

  // ---------------------------------------------------------------- avatar upload

  /** The avatar `fileFilter`: images only. */
  function AvatarFilter(mimetype: string): (v: Verdict)
    ensures v == Admit <==> StartsWith(mimetype, "image/")
    ensures v.Refuse? ==> v.message == OnlyImages
  {
    if IsImage(mimetype) then Admit else Refuse(OnlyImages)
  }

  /** `req.user?.id || 'unknown'`: a missing user and the id 0 both render as 'unknown'. */
  function UserIdPart(userId: Option<int>): (s: string)
    ensures s != "" && '.' !in s
    ensures userId.Some? && userId.value != 0 ==> s == IntToString(userId.value)
    ensures userId.None? || userId.value == 0 ==> s == "unknown"
  {
    if userId.Some? && userId.value != 0 then
      NoDotInIntToString(userId.value);
      IntToString(userId.value)
    else "unknown"
  }

  /**
   * The avatar storage `filename`: `avatar-`, the user part, `-`, the unique suffix and the
   * original name's extension, each at its place.
   */
  function AvatarFilename(userId: Option<int>, suffix: string, originalName: string): (f: string)
    ensures StartsWith(f, "avatar-")
    ensures EndsWith(f, Extname(originalName))
    ensures var n := |UserIdPart(userId)|;
      && |f| == 8 + n + |suffix| + |Extname(originalName)|
      && f[7..7 + n] == UserIdPart(userId)
      && f[7 + n] == '-'
      && f[8 + n..8 + n + |suffix|] == suffix
  {
    var f := "avatar-" + UserIdPart(userId) + "-" + suffix + Extname(originalName);
    FivePieces("avatar-", UserIdPart(userId), '-', suffix, Extname(originalName));
    f
  }

  /** Where each piece of `a + b + [c] + d + e` sits. */
  lemma FivePieces<T>(a: seq<T>, b: seq<T>, c: T, d: seq<T>, e: seq<T>)
    ensures var f := a + b + [c] + d + e;
      && |f| == |a| + |b| + 1 + |d| + |e|
      && f[..|a|] == a
      && f[|a|..|a| + |b|] == b
      && f[|a| + |b|] == c
      && f[|a| + |b| + 1..|a| + |b| + 1 + |d|] == d
      && f[|f| - |e|..] == e
  {
  }

  /** Stored avatars keep the uploaded file's extension. */
  lemma AvatarKeepsExtension(userId: Option<int>, nowMs: int, random: int, originalName: string)
    ensures Extname(AvatarFilename(userId, UniqueSuffix(nowMs, random), originalName)) == Extname(originalName)
  {
    var prefix := "avatar-" + UserIdPart(userId) + "-" + UniqueSuffix(nowMs, random);
    assert '.' !in prefix;
    assert AvatarFilename(userId, UniqueSuffix(nowMs, random), originalName) == prefix + Extname(originalName);
    ExtnameAfterDotFreePrefix(prefix, originalName);
  }

  datatype AvatarReply = AvatarFailed(status: int, message: string) | AvatarStored(message: string, url: string)

  /** `handleAvatarUpload`: 400 without a file, otherwise the public URL of the stored file. */
  function HandleAvatarUpload(storedName: Option<string>): (r: AvatarReply)
    ensures storedName.None? <==> r == AvatarFailed(400, NoFile)
    ensures storedName.Some? ==> r.AvatarStored? && r.message == Uploaded
    ensures storedName.Some? ==> StartsWith(r.url, "/avatars/") && r.url[|"/avatars/"|..] == storedName.value
  {
    match storedName
    case None => AvatarFailed(400, NoFile)
    case Some(name) => AvatarStored(Uploaded, "/avatars/" + name)
  }
}
