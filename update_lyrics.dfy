/**
 * The lyrics import script (server/src/update_lyrics.ts): copies every `.lrc` file of the source
 * directory and points the first song whose title is the file's stem at the copied file.
 * The file system is a parameter: whether the source directory exists, its listing, and which
 * copies succeed.
 */
module UpdateLyrics {

  import opened Wrappers
  import opened Text
  import opened Db
  import opened PathUtil
  import opened Seqs

  /** The listing filter: the name, lower-cased, ends in `.lrc`. */
  predicate IsLrc(file: string) {
    EndsWith(ToLower(file), ".lrc")
  }

  /** The lyrics files of a listing, each as often as listed, in listing order. */
  function LrcFiles(listing: seq<string>): (files: seq<string>)
    ensures |files| <= |listing|
    ensures Subsequence(files, listing)
    ensures forall f :: multiset(files)[f] == if IsLrc(f) then multiset(listing)[f] else 0
    ensures forall f :: f in files <==> f in listing && IsLrc(f)
  {
    if listing == [] then []
    else
      var rest := LrcFiles(listing[1..]);
      assert listing == [listing[0]] + listing[1..];
      assert forall f :: f in listing <==> f == listing[0] || f in listing[1..];
      if IsLrc(listing[0]) then [listing[0]] + rest else rest
  }

  /** The public URL of a copied lyrics file. */
  function LyricsUrl(file: string): (url: string)
    ensures StartsWith(url, "/lyrics/") && url[8..] == file
  {
    "/lyrics/" + file
  }

  /** `findFirst({ where: { title } })`: the first row with that title, deleted or not. */
  function FirstWithTitle(rows: seq<Song>, title: string): (r: Option<nat>)
    ensures r.Some? ==> r.value < |rows| && rows[r.value].title == title
    ensures r.Some? ==> forall k :: 0 <= k < r.value ==> rows[k].title != title
    ensures r.None? ==> forall k :: 0 <= k < |rows| ==> rows[k].title != title
  {
    if rows == [] then None
    else if rows[0].title == title then Some(0)
    else
      var rest := FirstWithTitle(rows[1..], title);
      assert forall k :: 0 < k < |rows| ==> rows[k] == rows[1..][k - 1];
      if rest.Some? then Some(rest.value + 1) else None
  }

  /** `update({ where: { id }, data: { lrcUrl } })` */
  function SetLrcUrl(rows: seq<Song>, id: int, url: string): (r: seq<Song>)
    ensures |r| == |rows|
    ensures forall k :: 0 <= k < |rows| ==> r[k] == if rows[k].id == id then rows[k].(lrcUrl := Some(url)) else rows[k]
  {
    seq(|rows|, k requires 0 <= k < |rows| => if rows[k].id == id then rows[k].(lrcUrl := Some(url)) else rows[k])
  }

  /** The table and the two counters. */
  datatype Run = Run(rows: seq<Song>, updated: nat, notFound: nat)

  /** One turn of the loop: a failed copy skips the file; otherwise the match is updated or counted missing. */
  function Step(r: Run, file: string, copied: string -> bool): Run {
    if !copied(file) then r
    else
      match FirstWithTitle(r.rows, ParseName(file))
      case None => r.(notFound := r.notFound + 1)
      case Some(i) => Run(SetLrcUrl(r.rows, r.rows[i].id, LyricsUrl(file)), r.updated + 1, r.notFound)
  }

  /** The loop over `files`, from the table `rows` and zero counters. */
  function Process(rows: seq<Song>, files: seq<string>, copied: string -> bool): Run {
    if files == [] then Run(rows, 0, 0)
    else Step(Process(rows, files[..|files| - 1], copied), files[|files| - 1], copied)
  }

  /**
   * The script: nothing when the source directory is missing; otherwise each lyrics file of the
   * listing in turn.
   */
  method UpdateLyrics(sourceExists: bool, listing: seq<string>, copied: string -> bool, table: SongTable)
    returns (updated: nat, notFound: nat)
    modifies table
    ensures !sourceExists ==> updated == 0 && notFound == 0 && table.rows == old(table.rows)
    ensures sourceExists ==> Run(table.rows, updated, notFound) == Process(old(table.rows), LrcFiles(listing), copied)
  {
    if !sourceExists {
      return 0, 0;
    }
    var files := LrcFiles(listing);
    updated, notFound := ImportFiles(files, copied, table);
  }

  /** The loop over the lyrics files. */
  method ImportFiles(files: seq<string>, copied: string -> bool, table: SongTable)
    returns (updated: nat, notFound: nat)
    modifies table
    ensures Run(table.rows, updated, notFound) == Process(old(table.rows), files, copied)
  {
    ghost var rows0 := table.rows;
    updated, notFound := 0, 0;
    var i := 0;
    while i < |files|
      invariant 0 <= i <= |files|
      invariant Run(table.rows, updated, notFound) == Process(rows0, files[..i], copied)
    {
      ProcessOneMore(rows0, files, i, copied);
      updated, notFound := ImportFile(files[i], copied, table, updated, notFound);
      i := i + 1;
    }
    assert files[..i] == files;
  }

  /**
   * One turn of the loop: when the copy succeeded, the first song with the file's stem as its
   * title gets the file's URL and `updated` is incremented, or `notFound` is when there is none.
   */
  method ImportFile(file: string, copied: string -> bool, table: SongTable, updated: nat, notFound: nat)
    returns (updated': nat, notFound': nat)
    modifies table
    ensures Run(table.rows, updated', notFound') == Step(Run(old(table.rows), updated, notFound), file, copied)
  {
    updated', notFound' := updated, notFound;
    if copied(file) {
      var found := FirstWithTitle(table.rows, ParseName(file));
      if found.Some? {
        table.rows := SetLrcUrl(table.rows, table.rows[found.value].id, LyricsUrl(file));
        updated' := updated + 1;
      } else {
        notFound' := notFound + 1;
      }
    }
  }

  /** The run over one more file is one more step. */
  lemma ProcessOneMore(rows: seq<Song>, files: seq<string>, i: nat, copied: string -> bool)
    requires i < |files|
    ensures Process(rows, files[..i + 1], copied) == Step(Process(rows, files[..i], copied), files[i], copied)
  {
    assert files[..i + 1][..i] == files[..i];
  }

  /** The files whose copy succeeds. */
  function Copied(files: seq<string>, copied: string -> bool): (r: seq<string>)
    ensures |r| <= |files|
  {
    if files == [] then []
    else Copied(files[..|files| - 1], copied) + (if copied(files[|files| - 1]) then [files[|files| - 1]] else [])
  }

  /** Every copied file is counted exactly once, as updated or as not found; skipped files are not counted. */
  lemma {:induction false} CountsAddUp(rows: seq<Song>, files: seq<string>, copied: string -> bool)
    ensures Process(rows, files, copied).updated + Process(rows, files, copied).notFound == |Copied(files, copied)|
    ensures Process(rows, files, copied).updated + Process(rows, files, copied).notFound <= |files|
  {
    if files != [] {
      CountsAddUp(rows, files[..|files| - 1], copied);
    }
  }

  /** When every copy succeeds, every lyrics file is counted. */
  lemma {:induction false} AllCopiedAllCounted(rows: seq<Song>, files: seq<string>, copied: string -> bool)
    requires forall f :: f in files ==> copied(f)
    ensures Process(rows, files, copied).updated + Process(rows, files, copied).notFound == |files|
  {
    CountsAddUp(rows, files, copied);
    assert forall i :: 0 <= i < |files| ==> files[i] in files;
    CopiedAll(files, copied);
  }

  lemma {:induction false} CopiedAll(files: seq<string>, copied: string -> bool)
    requires forall i :: 0 <= i < |files| ==> copied(files[i])
    ensures Copied(files, copied) == files
  {
    if files != [] {
      var n := |files| - 1;
      CopiedAll(files[..n], copied);
      assert files[..n] + [files[n]] == files;
    }
  }

  /** Rows that differ from `base` in at most their `lrcUrl`. */
  predicate OnlyLrcUrlChanged(base: seq<Song>, cur: seq<Song>) {
    |cur| == |base| && forall k :: 0 <= k < |base| ==> cur[k] == base[k].(lrcUrl := cur[k].lrcUrl)
  }

  /**
   * What a run may do to a row: nothing but its `lrcUrl`, and that only for the first row of its
   * title, pointing it at a copied file whose stem is that title.
   */
  predicate ChangedByFiles(base: seq<Song>, cur: seq<Song>, files: seq<string>, copied: string -> bool) {
    && OnlyLrcUrlChanged(base, cur)
    && forall k :: 0 <= k < |base| && cur[k].lrcUrl != base[k].lrcUrl ==>
         && FirstWithTitle(base, base[k].title) == Some(k)
         && exists f :: f in files && copied(f) && ParseName(f) == base[k].title && cur[k].lrcUrl == Some(LyricsUrl(f))
  }

  /** Rows with the same titles have the same first row per title. */
  lemma {:induction false} SameTitlesSameFirst(a: seq<Song>, b: seq<Song>, title: string)
    requires |a| == |b| && forall k :: 0 <= k < |a| ==> a[k].title == b[k].title
    ensures FirstWithTitle(a, title) == FirstWithTitle(b, title)
  {
    if a != [] && a[0].title != title {
      SameTitlesSameFirst(a[1..], b[1..], title);
    }
  }

  /**
   * With unique ids, the run changes only `lrcUrl` values, only of the first song of each title,
   * and only to the URL of a copied file named after that title.
   */
  lemma {:induction false} ProcessChangesOnlyLyrics(rows: seq<Song>, files: seq<string>, copied: string -> bool)
    requires UniqueSongIds(rows)
    ensures ChangedByFiles(rows, Process(rows, files, copied).rows, files, copied)
  {
    if files != [] {
      var n := |files| - 1;
      ProcessChangesOnlyLyrics(rows, files[..n], copied);
      StepChangesOnlyLyrics(rows, files[..n], files[n], copied);
      assert files[..n] + [files[n]] == files;
    }
  }

  /** One more file keeps the description of what the run may change. */
  lemma StepChangesOnlyLyrics(rows: seq<Song>, done: seq<string>, file: string, copied: string -> bool)
    requires UniqueSongIds(rows)
    requires ChangedByFiles(rows, Process(rows, done, copied).rows, done, copied)
    ensures ChangedByFiles(rows, Step(Process(rows, done, copied), file, copied).rows, done + [file], copied)
  {
    var prev := Process(rows, done, copied).rows;
    var cur := Step(Process(rows, done, copied), file, copied).rows;
    var files := done + [file];
    MoreFilesAllowMore(rows, prev, done, files, copied);
    var found := FirstWithTitle(prev, ParseName(file));
    if copied(file) && found.Some? {
      var i := found.value;
      assert cur == SetLrcUrl(prev, prev[i].id, LyricsUrl(file));
      SameTitlesSameFirst(rows, prev, ParseName(file));
      assert OnlyLrcUrlChanged(rows, cur);
      forall k | 0 <= k < |rows| && cur[k].lrcUrl != rows[k].lrcUrl
        ensures FirstWithTitle(rows, rows[k].title) == Some(k)
        ensures exists f :: f in files && copied(f) && ParseName(f) == rows[k].title && cur[k].lrcUrl == Some(LyricsUrl(f))
      {
        if cur[k] != prev[k] {
          NewUrlFromFile(rows, prev, i, k, file, cur);
          assert file in files;
        }
      }
    } else {
      assert cur == prev;
    }
  }

  /** Allowing more files allows at least the same changes. */
  lemma MoreFilesAllowMore(base: seq<Song>, cur: seq<Song>, done: seq<string>, files: seq<string>, copied: string -> bool)
    requires ChangedByFiles(base, cur, done, copied)
    requires forall f :: f in done ==> f in files
    ensures ChangedByFiles(base, cur, files, copied)
  {
    forall k | 0 <= k < |base| && cur[k].lrcUrl != base[k].lrcUrl
      ensures exists f :: f in files && copied(f) && ParseName(f) == base[k].title && cur[k].lrcUrl == Some(LyricsUrl(f))
    {
      var f :| f in done && copied(f) && ParseName(f) == base[k].title && cur[k].lrcUrl == Some(LyricsUrl(f));
      assert f in files;
    }
  }

  /** A row the step changed is the first of the file's title, which its row id singled out. */
  lemma NewUrlFromFile(rows: seq<Song>, prev: seq<Song>, i: nat, k: nat, file: string, cur: seq<Song>)
    requires UniqueSongIds(rows) && OnlyLrcUrlChanged(rows, prev)
    requires FirstWithTitle(prev, ParseName(file)) == Some(i)
    requires FirstWithTitle(rows, ParseName(file)) == Some(i)
    requires cur == SetLrcUrl(prev, prev[i].id, LyricsUrl(file))
    requires k < |rows| && cur[k] != prev[k]
    ensures k == i && rows[k].title == ParseName(file) && cur[k].lrcUrl == Some(LyricsUrl(file))
  {
    assert prev[k].id == prev[i].id;
    assert rows[k].id == rows[i].id;
  }
}
