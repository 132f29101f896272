/**
 * The client's song API helpers (src/api/songs.ts): the upload form, and the request
 * descriptions of the search, play-record and play-rank calls.
 */
module SongsApi {

  import opened Wrappers
  import opened Text
  import opened Request

  /** A `File` chosen in the browser, identified by its name. */
  datatype FileRef = FileRef(name: string)

  /** `UploadSong`: the song file and the optional cover and text fields. */
  datatype UploadSong = UploadSong(
    file: FileRef,
    cover: Option<FileRef>,
    title: Option<string>,
    artist: Option<string>,
    album: Option<string>)

  /** A `FormData` value: a file part or a text part. */
  datatype FormValue = FilePart(file: FileRef) | TextPart(text: string)

  type FormData = seq<(string, FormValue)>

  const UploadUrl: string := "/songs/upload"

  /** The order in which `uploadSong` appends its fields. */
  const FieldOrder: seq<string> := ["file", "cover", "title", "artist", "album"]

  /** The position of a field name in `FieldOrder` (5 for any other name). */
  function FieldRank(key: string): (r: nat)
    ensures r <= 5
    ensures r < 5 ==> FieldOrder[r] == key
  {
    if key == "file" then 0
    else if key == "cover" then 1
    else if key == "title" then 2
    else if key == "artist" then 3
    else if key == "album" then 4
    else 5
  }

  /** The value `uploadSong` appends under `key`, or `None` when the field is skipped (falsy). */
  function FieldValue(data: UploadSong, key: string): Option<FormValue> {
    if key == "file" then Some(FilePart(data.file))
    else if key == "cover" then (if data.cover.Some? then Some(FilePart(data.cover.value)) else None)
    else if key == "title" then (if Truthy(data.title) then Some(TextPart(data.title.value)) else None)
    else if key == "artist" then (if Truthy(data.artist) then Some(TextPart(data.artist.value)) else None)
    else if key == "album" then (if Truthy(data.album) then Some(TextPart(data.album.value)) else None)
    else None
  }

  predicate HasKey(form: FormData, key: string) {
    exists i :: 0 <= i < |form| && form[i].0 == key
  }

  /**
   * What the upload form holds: the file first; then cover, title, artist and album exactly when
   * truthy, each once, in that order, with its value.
   */
  predicate IsUploadForm(data: UploadSong, form: FormData) {
    && |form| >= 1 && form[0] == ("file", FilePart(data.file))
    && (forall i, j :: 0 <= i < j < |form| ==> FieldRank(form[i].0) < FieldRank(form[j].0))
    && (forall i :: 0 <= i < |form| ==> FieldRank(form[i].0) < 5 && FieldValue(data, form[i].0) == Some(form[i].1))
    && (forall k :: k in FieldOrder ==> (HasKey(form, k) <==> FieldValue(data, k).Some?))
  }

  /** The form once the first `n` fields of `FieldOrder` have been considered. */
  predicate FormUpTo(data: UploadSong, form: FormData, n: nat) {
    && |form| >= 1 && form[0] == ("file", FilePart(data.file))
    && (forall i, j :: 0 <= i < j < |form| ==> FieldRank(form[i].0) < FieldRank(form[j].0))
    && (forall i :: 0 <= i < |form| ==> FieldRank(form[i].0) < n && FieldValue(data, form[i].0) == Some(form[i].1))
    && (forall r :: 0 <= r < n && r < |FieldOrder| ==> (HasKey(form, FieldOrder[r]) <==> FieldValue(data, FieldOrder[r]).Some?))
  }

  /** One `if (data.<key>) formData.append(<key>, data.<key>)` step. */
  method AppendField(data: UploadSong, form: FormData, key: string) returns (r: FormData)
    requires 1 <= FieldRank(key) < 5 && FormUpTo(data, form, FieldRank(key))
    ensures FormUpTo(data, r, FieldRank(key) + 1)
    ensures r == if FieldValue(data, key).Some? then form + [(key, FieldValue(data, key).value)] else form
  {
    var n := FieldRank(key);
    assert FieldOrder[n] == key;
    if FieldValue(data, key).Some? {
      r := form + [(key, FieldValue(data, key).value)];
      assert r[|r| - 1].0 == key;
      forall q | 0 <= q < n
        ensures HasKey(r, FieldOrder[q]) <==> HasKey(form, FieldOrder[q])
      {
        assert FieldRank(FieldOrder[q]) == q;
        if HasKey(r, FieldOrder[q]) {
          var i :| 0 <= i < |r| && r[i].0 == FieldOrder[q];
          assert i < |form| && form[i] == r[i];
        }
        if HasKey(form, FieldOrder[q]) {
          var i :| 0 <= i < |form| && form[i].0 == FieldOrder[q];
          assert r[i] == form[i];
        }
      }
    } else {
      r := form;
      assert !HasKey(form, key);
    }
  }

  /** `uploadSong`'s form, appended field by field. */
  method BuildUploadForm(data: UploadSong) returns (form: FormData)
    ensures IsUploadForm(data, form)
  {
    form := [("file", FilePart(data.file))];
    FormStarts(data, form);
    assert FieldRank("cover") == 1;
    form := AppendField(data, form, "cover");
    assert FieldRank("title") == 2;
    form := AppendField(data, form, "title");
    assert FieldRank("artist") == 3;
    form := AppendField(data, form, "artist");
    assert FieldRank("album") == 4;
    form := AppendField(data, form, "album");
    FormCompletes(data, form);
  }

  lemma FormStarts(data: UploadSong, form: FormData)
    requires form == [("file", FilePart(data.file))]
    ensures FormUpTo(data, form, 1)
  {
    assert HasKey(form, "file") by { assert form[0].0 == "file"; }
  }

  lemma FormCompletes(data: UploadSong, form: FormData)
    requires FormUpTo(data, form, 5)
    ensures IsUploadForm(data, form)
  {
    forall k | k in FieldOrder
      ensures HasKey(form, k) <==> FieldValue(data, k).Some?
    {
      assert FieldOrder[FieldRank(k)] == k;
    }
  }

  /** Each key appears at most once in the upload form. */
  lemma UploadKeysDistinct(data: UploadSong, form: FormData)
    requires IsUploadForm(data, form)
    ensures forall i, j :: 0 <= i < j < |form| ==> form[i].0 != form[j].0
    ensures |form| <= |FieldOrder|
  {
    var ranks := seq(|form|, i requires 0 <= i < |form| => FieldRank(form[i].0));
    StrictlyIncreasingBounded(ranks, 5);
  }

  lemma {:induction false} StrictlyIncreasingBounded(s: seq<nat>, bound: nat)
    requires forall i, j :: 0 <= i < j < |s| ==> s[i] < s[j]
    requires forall i :: 0 <= i < |s| ==> s[i] < bound
    ensures |s| <= bound
  {
    if |s| > 0 {
      StrictlyIncreasingBounded(s[..|s| - 1], s[|s| - 1]);
    }
  }

  /** `recordPlay`: a POST to `/songs/<id>/play`. */
  function RecordPlay(songId: int): (c: Call)
    ensures c.Post? && c.fields == []
    ensures StartsWith(c.url, "/songs/") && EndsWith(c.url, "/play")
  {
    Post("/songs/" + IntToString(songId) + "/play", [])
  }

  /** The play URL names the song: its path segments are `songs`, the decimal id and `play`. */
  lemma RecordPlayUrlNamesSong(songId: nat)
    ensures Split(RecordPlay(songId).url, '/') == ["", "songs", NatToString(songId), "play"]
    ensures DecimalValue(Split(RecordPlay(songId).url, '/')[2]) == songId
  {
    var id := NatToString(songId);
    assert '/' !in id by {
      assert forall k :: 0 <= k < |id| ==> IsDigit(id[k]);
    }
    assert RecordPlay(songId).url == "/" + "songs" + "/" + id + "/" + "play";
    SplitThreeSegments("songs", id, "play");
    DecimalValueOfNatToString(songId);
  }

  /** An absolute path of three slash-free segments splits into "" and the three segments. */
  lemma SplitThreeSegments(a: string, b: string, c: string)
    requires '/' !in a && '/' !in b && '/' !in c
    ensures Split("/" + a + "/" + b + "/" + c, '/') == ["", a, b, c]
  {
    assert "/" + a + "/" + b + "/" + c == [] + ['/'] + (a + ['/'] + (b + ['/'] + c));
    SplitPiece([], a + ['/'] + (b + ['/'] + c), '/');
    SplitPiece(a, b + ['/'] + c, '/');
    SplitPiece(b, c, '/');
    SplitNoSeparator(c, '/');
  }

  const RankUrl: string := "/songs/rank"
  const SearchUrl: string := "/songs"

  /** `getPlayRank`: the `type` parameter defaults to 'total'. */
  function GetPlayRank(kind: Option<string>): (c: Call)
    ensures c.Get? && c.url == RankUrl && c.params.Keys == {"type"}
    ensures c.params["type"] == if kind.Some? then kind.value else "total"
  {
    Get(RankUrl, map["type" := kind.GetOr("total")])
  }

  /** `SearchInput` */
  datatype SearchInput = SearchInput(search: Option<string>, album: Option<string>, uploaderId: Option<int>)

  /** The input as query parameters: every present field, none added (the client drops undefined ones). */
  function SearchParams(input: SearchInput): (params: map<string, string>)
    ensures "search" in params <==> input.search.Some?
    ensures "album" in params <==> input.album.Some?
    ensures "uploaderId" in params <==> input.uploaderId.Some?
    ensures params.Keys <= {"search", "album", "uploaderId"}
    ensures input.search.Some? ==> params["search"] == input.search.value
    ensures input.album.Some? ==> params["album"] == input.album.value
    ensures input.uploaderId.Some? ==> params["uploaderId"] == IntToString(input.uploaderId.value)
  {
    var p0: map<string, string> := map[];
    var p1 := if input.search.Some? then p0["search" := input.search.value] else p0;
    var p2 := if input.album.Some? then p1["album" := input.album.value] else p1;
    if input.uploaderId.Some? then p2["uploaderId" := IntToString(input.uploaderId.value)] else p2
  }

  /** `fetchSearchSongs`: a GET of `/songs` with the input as its parameters. */
  function FetchSearchSongs(input: SearchInput): (c: Call)
    ensures c == Get(SearchUrl, SearchParams(input))
  {
    Get(SearchUrl, SearchParams(input))
  }
}
