/**
 * The song/cover upload configuration (server/src/middleware/upload.middleware.ts): where a file
 * is stored, which files the filter admits, and the shape of the stored file name.
 */
module UploadMiddleware {

  import opened Text
  import opened PathUtil

  /** The two upload directories, `public/songs` and `public/covers` under the working directory. */
  datatype UploadDir = SongsDir | CoversDir

  /** The storage `destination`: the form field decides the directory. */
  function Destination(fieldname: string): (d: UploadDir)
    ensures d == CoversDir <==> fieldname == "cover"
  {
    if fieldname == "cover" then CoversDir else SongsDir
  }

  const CoverNotImage: string := "封面必须是图片文件!"
  const SongNotAudio: string := "歌曲必须是音频文件!"
  const UnknownField: string := "未知的文件字段"

  /** The one answer the filter hands to its callback: keep the file, or fail with an error. */
  datatype Verdict = Admit | Refuse(message: string)

  predicate IsImage(mimetype: string) {
    StartsWith(mimetype, "image/")
  }

  predicate IsAudio(mimetype: string) {
    StartsWith(mimetype, "audio/") || mimetype == "application/octet-stream"
  }

  /** `fileFilter`: covers must be images, song files audio, and no other field is accepted. */
  function FileFilter(fieldname: string, mimetype: string): (v: Verdict)
    ensures fieldname == "cover" ==> (v == Admit <==> IsImage(mimetype))
    ensures fieldname == "file" ==> (v == Admit <==> IsAudio(mimetype))
    ensures v == Admit ==> fieldname in {"cover", "file"}
    ensures v.Refuse? ==>
      v.message == (if fieldname == "cover" then CoverNotImage
                    else if fieldname == "file" then SongNotAudio
                    else UnknownField)
  {
    if fieldname == "cover" then
      if IsImage(mimetype) then Admit else Refuse(CoverNotImage)
    else if fieldname == "file" then
      if IsAudio(mimetype) then Admit else Refuse(SongNotAudio)
    else Refuse(UnknownField)
  }

  /**
   * The unique part of a stored name, `Date.now() + '-' + Math.round(Math.random() * 1e9)`;
   * the clock reading and the rounded random number are parameters.
   */
  function UniqueSuffix(nowMs: int, random: int): (u: string)
    ensures u != "" && '.' !in u
  {
    var u := IntToString(nowMs) + "-" + IntToString(random);
    NoDotInIntToString(nowMs);
    NoDotInIntToString(random);
    u
  }

  lemma NoDotInIntToString(i: int)
    ensures '.' !in IntToString(i)
  {
    var s := IntToString(i);
    var n := NatToString(if i < 0 then -i else i);
    assert forall k :: 0 <= k < |n| ==> n[k] != '.';
    assert i < 0 ==> s == "-" + n;
  }

  /** The storage `filename`: the unique suffix followed by the extension of the (decoded) original name. */
  function StoredFilename(suffix: string, originalName: string): (f: string)
    ensures StartsWith(f, suffix) && EndsWith(f, Extname(originalName))
    ensures |f| == |suffix| + |Extname(originalName)|
  {
    suffix + Extname(originalName)
  }

  /** A stored file has the same extension as the file that was uploaded. */
  lemma StoredFilenameKeepsExtension(nowMs: int, random: int, originalName: string)
    ensures Extname(StoredFilename(UniqueSuffix(nowMs, random), originalName)) == Extname(originalName)
  {
    ExtnameAfterDotFreePrefix(UniqueSuffix(nowMs, random), originalName);
  }
}
