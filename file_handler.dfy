/**
  Upload storage: files live in the `pdfs`, `images` and `temp`
  subdirectories of the upload directory.  Each directory is modelled as
  the sequence of its entries in the order the directory listing yields
  them; the file id generator (clock plus MD5) and the clock are parameters.
*/
module Uploads {
  import opened Wrappers
  import opened Text

  /** The subdirectories created at start-up, in the order searches visit them. */
  const Categories: seq<string> := ["pdfs", "images", "temp"]

  /** A directory entry: a regular file (with its bytes) or a subdirectory. */
  datatype Entry = Entry(name: string, isFile: bool, content: seq<bv8>, mtime: real)

  /** `(category, name)`: the file `upload_dir / category / name`. */
  type FilePath = (string, string)

  /** The dictionary `save_upload` returns (without its `upload_time`). */
  datatype UploadInfo = UploadInfo(
    fileId: string, originalFilename: string, storedFilename: string, filePath: string,
    contentType: string, category: string, sizeBytes: nat)

  /** The category directory for a MIME type. */
  function GetFileCategory(contentType: string): (c: string)
    ensures c in Categories
    ensures c == "pdfs" <==> contentType == "application/pdf"
    ensures c == "images" <==> StartsWith(contentType, "image/")
  {
    if contentType == "application/pdf" then
      assert contentType[0] != "image/"[0];
      "pdfs"
    else if StartsWith(contentType, "image/") then "images"
    else "temp"
  }

  /** `Path(s).name`: the last `/`-separated component, skipping empty and `.`
      components. */
  function Name(s: string): (r: string)
    ensures '/' !in r
    decreases |s|
  {
    var k := LastIndexIn(s, '/', 0, |s|);
    if k == -1 then (if s == "." then "" else s)
    else
      var last := s[k + 1..];
      if last == "" || last == "." then Name(s[..k])
      else
        assert forall m :: 0 <= m < |last| ==> last[m] == s[k + 1 + m];
        last
  }

  /** `Path(s).suffix`: from the last `.` of the name, unless that dot opens
      or ends the name. */
  function Suffix(s: string): (r: string)
    ensures r == [] || (|r| >= 2 && r[0] == '.' && '.' !in r[1..] && '/' !in r)
  {
    var name := Name(s);
    var i := LastIndexIn(name, '.', 0, |name|);
    if 0 < i < |name| - 1 then
      var r := name[i..];
      assert forall m :: 1 <= m < |r| ==> r[m] == name[i + m];
      assert forall c :: c in r ==> c in name;
      r
    else []
  }

  /** `Path(name).stem` for a directory entry: the name without its suffix. */
  function Stem(name: string): string {
    var i := LastIndexIn(name, '.', 0, |name|);
    if 0 < i < |name| - 1 then name[..i] else name
  }

  /** What the id generator yields: a hex digest, so non-empty and free of `.` and `/`. */
  predicate IsFileId(id: string) {
    id != [] && '.' !in id && '/' !in id
  }

  /** `f"{file_id}{file_ext}"`. */
  function StoredName(fileId: string, filename: string): string {
    fileId + Suffix(filename)
  }

  /** A stored name is a plain file name whose stem is the id again, so a
      search by id finds it. */
  lemma StoredNameStem(fileId: string, filename: string)
    requires IsFileId(fileId)
    ensures '/' !in StoredName(fileId, filename)
    ensures Stem(StoredName(fileId, filename)) == fileId
  {
    var ext := Suffix(filename);
    var s := fileId + ext;
    var i := LastIndexIn(s, '.', 0, |s|);
    if ext == [] {
      assert s == fileId;
    } else {
      assert s[|fileId|] == '.';
      assert forall m :: |fileId| < m < |s| ==> s[m] == ext[1..][m - |fileId| - 1];
      assert i == |fileId|;
      assert s[..i] == fileId;
    }
  }

  function PathText(uploadDir: string, p: FilePath): string {
    uploadDir + "/" + p.0 + "/" + p.1
  }

  /** The position of the first entry called `name`, or -1. */
  function IndexOfName(entries: seq<Entry>, name: string): (k: int)
    ensures -1 <= k < |entries|
    ensures k == -1 <==> forall j :: 0 <= j < |entries| ==> entries[j].name != name
    ensures k >= 0 ==> entries[k].name == name && forall j :: 0 <= j < k ==> entries[j].name != name
  {
    if |entries| == 0 then -1
    else if entries[0].name == name then 0
    else
      var k := IndexOfName(entries[1..], name);
      if k == -1 then -1 else k + 1
  }

  /** The position of the first entry whose stem is `id`, or -1. */
  function FirstStem(entries: seq<Entry>, id: string): (k: int)
    ensures -1 <= k < |entries|
    ensures k == -1 <==> forall j :: 0 <= j < |entries| ==> Stem(entries[j].name) != id
    ensures k >= 0 ==> Stem(entries[k].name) == id && forall j :: 0 <= j < k ==> Stem(entries[j].name) != id
  {
    if |entries| == 0 then -1
    else if Stem(entries[0].name) == id then 0
    else
      var k := FirstStem(entries[1..], id);
      if k == -1 then -1 else k + 1
  }

  /** The directory after `open(path, 'wb')` writes `e`: an existing file of
      that name is replaced in place, otherwise the file is added. */
  function Written(entries: seq<Entry>, e: Entry): seq<Entry> {
    var k := IndexOfName(entries, e.name);
    if k >= 0 then entries[k := e] else entries + [e]
  }

  /** What `get_file_path` returns: the first entry, category by category and
      in listing order, whose stem is `id`; a missing directory raises. */
  function FindIn(dirs: map<string, seq<Entry>>, cats: seq<string>, id: string): Result<Option<FilePath>, Exception>
    decreases |cats|
  {
    if |cats| == 0 then Ok(None)
    else if cats[0] !in dirs then Err(Exception("FileNotFoundError", cats[0]))
    else
      var k := FirstStem(dirs[cats[0]], id);
      if k >= 0 then Ok(Some((cats[0], dirs[cats[0]][k].name)))
      else FindIn(dirs, cats[1..], id)
  }

  /** The categories `get_file_path` searches: the given one, unless it is
      missing or empty, else all three. */
  function SearchOrder(category: Option<string>): seq<string> {
    if category.Some? && category.value != "" then [category.value] else Categories
  }

  /** A found path names an entry of a searched, existing category whose
      stem is the id; `None` means no searched category holds such an entry;
      an error names a searched directory that is missing, and cannot happen
      when every searched directory exists. */
  lemma {:induction false} FindInFacts(dirs: map<string, seq<Entry>>, cats: seq<string>, id: string)
    ensures (forall c :: c in cats ==> c in dirs) ==> FindIn(dirs, cats, id).Ok?
    ensures FindIn(dirs, cats, id).Err? ==> exists c :: c in cats && c !in dirs
    ensures FindIn(dirs, cats, id).Ok? && FindIn(dirs, cats, id).value.None? ==>
      forall c :: c in cats ==> c in dirs && FirstStem(dirs[c], id) == -1
    ensures FindIn(dirs, cats, id).Ok? && FindIn(dirs, cats, id).value.Some? ==>
      var p := FindIn(dirs, cats, id).value.value;
      && p.0 in cats && p.0 in dirs && FirstStem(dirs[p.0], id) >= 0
      && dirs[p.0][FirstStem(dirs[p.0], id)].name == p.1
    decreases |cats|
  {
    if |cats| > 0 && cats[0] in dirs && FirstStem(dirs[cats[0]], id) == -1 {
      FindInFacts(dirs, cats[1..], id);
      assert forall c :: c in cats[1..] ==> c in cats;
      assert forall c :: c in cats ==> c == cats[0] || c in cats[1..];
    }
  }

  /** Categories without a match are skipped: the search answers as if it
      started at the first category that may hold the id. */
  lemma {:induction false} FindInSkips(dirs: map<string, seq<Entry>>, cats: seq<string>, id: string, j: nat)
    requires j <= |cats|
    requires forall i :: 0 <= i < j ==> cats[i] in dirs && FirstStem(dirs[cats[i]], id) == -1
    ensures FindIn(dirs, cats, id) == FindIn(dirs, cats[j..], id)
    decreases j
  {
    if j > 0 {
      FindInSkips(dirs, cats[1..], id, j - 1);
      assert cats[1..][j - 1..] == cats[j..];
    }
  }

  /** Writing a stored name into a directory where nothing answers to the id
      appends it, and it is then the directory's first entry with that stem. */
  lemma WrittenFirstStem(entries: seq<Entry>, fileId: string, filename: string, content: seq<bv8>, now: real)
    requires IsFileId(fileId) && FirstStem(entries, fileId) == -1
    ensures var e := Entry(StoredName(fileId, filename), true, content, now);
      Written(entries, e) == entries + [e] && FirstStem(entries + [e], fileId) == |entries|
  {
    StoredNameStem(fileId, filename);
    var e := Entry(StoredName(fileId, filename), true, content, now);
    AppendFirstStem(entries, e, fileId);
  }

  lemma AppendFirstStem(entries: seq<Entry>, e: Entry, fileId: string)
    requires Stem(e.name) == fileId && FirstStem(entries, fileId) == -1
    ensures Written(entries, e) == entries + [e] && FirstStem(entries + [e], fileId) == |entries|
  {
    var w := entries + [e];
    assert forall j :: 0 <= j < |entries| ==> w[j] == entries[j];
    assert w[|entries|] == e;
  }

  /** The three category names differ (already in their first letters). */
  lemma CategoriesDistinct()
    ensures forall i, k :: 0 <= i < k < |Categories| ==> Categories[i] != Categories[k]
  {
    assert Categories[0][0] == 'p' && Categories[1][0] == 'i' && Categories[2][0] == 't';
  }

  /** Appending an entry that answers to the id to the directory of
      `cats[j]`, when neither it nor any category searched before it holds
      one, makes the search find that entry. */
  lemma {:induction false} FindAfterAppend(dirs: map<string, seq<Entry>>, cats: seq<string>, j: nat, id: string, e: Entry)
    requires j < |cats| && cats[j] in dirs && FirstStem(dirs[cats[j]], id) == -1 && Stem(e.name) == id
    requires forall i :: 0 <= i < j ==> cats[i] != cats[j] && cats[i] in dirs && FirstStem(dirs[cats[i]], id) == -1
    ensures FindIn(dirs[cats[j] := dirs[cats[j]] + [e]], cats, id) == Ok(Some((cats[j], e.name)))
  {
    var c := cats[j];
    var after := dirs[c := dirs[c] + [e]];
    AppendFirstStem(dirs[c], e, id);
    assert forall i :: 0 <= i < j ==> after[cats[i]] == dirs[cats[i]];
    FindInSkips(after, cats, id, j);
    assert cats[j..][0] == c;
    assert (dirs[c] + [e])[|dirs[c]|] == e;
  }

  /** Round trip: after a fresh id's upload is saved, searching all categories
      for the id finds exactly the stored file. */
  lemma SavedThenFound(dirs: map<string, seq<Entry>>, fileId: string, filename: string, contentType: string, content: seq<bv8>, now: real)
    requires IsFileId(fileId)
    requires forall c :: c in Categories ==> c in dirs && FirstStem(dirs[c], fileId) == -1
    ensures var c := GetFileCategory(contentType);
      var stored := StoredName(fileId, filename);
      var after := dirs[c := Written(dirs[c], Entry(stored, true, content, now))];
      FindIn(after, SearchOrder(None), fileId) == Ok(Some((c, stored)))
  {
    var c := GetFileCategory(contentType);
    var e := Entry(StoredName(fileId, filename), true, content, now);
    WrittenFirstStem(dirs[c], fileId, filename, content, now);
    StoredNameStem(fileId, filename);
    var j := if c == "pdfs" then 0 else if c == "images" then 1 else 2;
    assert Categories[j] == c;
    CategoriesDistinct();
    FindAfterAppend(dirs, Categories, j, fileId, e);
  }

  /** A temporary file is stale when its age in hours strictly exceeds the threshold. */
  predicate Stale(e: Entry, now: real, olderThanHours: int) {
    e.isFile && (now - e.mtime) / 3600.0 > olderThanHours as real
  }

  /** The entries `cleanup_temp_files` leaves, in their order. */
  function Fresh(entries: seq<Entry>, now: real, olderThanHours: int): seq<Entry> {
    if |entries| == 0 then []
    else
      var rest := Fresh(entries[..|entries| - 1], now, olderThanHours);
      var e := entries[|entries| - 1];
      if Stale(e, now, olderThanHours) then rest else rest + [e]
  }

  /** Exactly the stale files go; everything else stays, in order, and the
      count of removed entries is what is missing. */
  lemma {:induction false} FreshFacts(entries: seq<Entry>, now: real, olderThanHours: int)
    ensures var f := Fresh(entries, now, olderThanHours);
      && |f| <= |entries|
      && (forall e :: e in f <==> e in entries && !Stale(e, now, olderThanHours))
  {
    if |entries| > 0 {
      var init := entries[..|entries| - 1];
      FreshFacts(init, now, olderThanHours);
      assert entries == init + [entries[|entries| - 1]];
    }
  }

  /** A file exactly `older_than_hours` old is kept; one a second older is not. */
  lemma StaleBoundary(e: Entry, now: real, olderThanHours: int)
    requires e.isFile
    ensures now - e.mtime == 3600.0 * olderThanHours as real ==> !Stale(e, now, olderThanHours)
    ensures now - e.mtime == 3600.0 * olderThanHours as real + 1.0 ==> Stale(e, now, olderThanHours)
  {
  }

  /** One turn of the cleanup loop: the next entry goes when it is stale
      and is kept otherwise. */
  lemma FreshStep(snapshot: seq<Entry>, i: nat, kept: seq<Entry>, now: real, olderThanHours: int)
    requires i < |snapshot| && kept == Fresh(snapshot[..i], now, olderThanHours)
    ensures Stale(snapshot[i], now, olderThanHours) ==> Fresh(snapshot[..i + 1], now, olderThanHours) == kept
    ensures !Stale(snapshot[i], now, olderThanHours) ==>
      && Fresh(snapshot[..i + 1], now, olderThanHours) == kept + [snapshot[i]]
      && kept + snapshot[i..] == (kept + [snapshot[i]]) + snapshot[i + 1..]
  {
    assert snapshot[..i + 1][..i] == snapshot[..i];
    assert snapshot[i..] == [snapshot[i]] + snapshot[i + 1..];
  }

  class FileHandler {
    const uploadDir: string
    var dirs: map<string, seq<Entry>>

    ghost predicate Valid()
      reads this
    {
      forall c :: c in Categories ==> c in dirs
    }

    /** Opens the upload directory, keeping what is there and creating the
        three category directories that are missing. */
    constructor (uploadDir: string, existing: map<string, seq<Entry>>)
      ensures Valid() && this.uploadDir == uploadDir
      ensures forall c :: c in existing ==> c in dirs && dirs[c] == existing[c]
      ensures forall c :: c in dirs ==> c in existing || (c in Categories && dirs[c] == [])
    {
      this.uploadDir := uploadDir;
      var d := existing;
      for i := 0 to |Categories|
        invariant forall c :: c in Categories[..i] ==> c in d
        invariant forall c :: c in existing ==> c in d && d[c] == existing[c]
        invariant forall c :: c in d ==> c in existing || (c in Categories && d[c] == [])
      {
        if Categories[i] !in d {
          d := d[Categories[i] := []];
        }
      }
      assert Categories[..|Categories|] == Categories;
      dirs := d;
    }

    /** Writes the bytes under `file_id` plus the original suffix in the
        category directory; a subdirectory already holding that name makes
        the write fail. */
    method SaveUpload(fileContent: seq<bv8>, filename: string, contentType: string, fileId: string, now: real)
      returns (r: Result<UploadInfo, Exception>)
      requires Valid() && IsFileId(fileId)
      modifies this
      ensures Valid()
      ensures var category := GetFileCategory(contentType);
        var stored := StoredName(fileId, filename);
        var k := IndexOfName(old(dirs)[category], stored);
        && (r.Err? <==> k >= 0 && !old(dirs)[category][k].isFile)
        && (r.Err? ==> dirs == old(dirs) && r.error.kind == "IsADirectoryError")
        && (r.Ok? ==>
              && dirs == old(dirs)[category := Written(old(dirs)[category], Entry(stored, true, fileContent, now))]
              && r.value == UploadInfo(fileId, filename, stored, PathText(uploadDir, (category, stored)),
                                       contentType, category, |fileContent|))
    {
      var category := GetFileCategory(contentType);
      var fileExt := Suffix(filename);
      var storedFilename := fileId + fileExt;
      var entries := dirs[category];
      var k := IndexOfName(entries, storedFilename);
      if k >= 0 && !entries[k].isFile {
        return Err(Exception("IsADirectoryError", PathText(uploadDir, (category, storedFilename))));
      }
      var e := Entry(storedFilename, true, fileContent, now);
      if k >= 0 {
        dirs := dirs[category := entries[k := e]];
      } else {
        dirs := dirs[category := entries + [e]];
      }
      r := Ok(UploadInfo(fileId, filename, storedFilename, PathText(uploadDir, (category, storedFilename)),
                         contentType, category, |fileContent|));
    }

    /** The first entry whose stem is `file_id`, searching the given category
        or else `pdfs`, `images`, `temp` in that order. */
    method GetFilePath(fileId: string, category: Option<string>) returns (r: Result<Option<FilePath>, Exception>)
      ensures r == FindIn(dirs, SearchOrder(category), fileId)
    {
      var categories := if category.Some? && category.value != "" then [category.value] else Categories;
      for i := 0 to |categories|
        invariant FindIn(dirs, categories, fileId) == FindIn(dirs, categories[i..], fileId)
      {
        var cat := categories[i];
        if cat !in dirs {
          return Err(Exception("FileNotFoundError", cat));
        }
        var entries := dirs[cat];
        for j := 0 to |entries|
          invariant forall j' :: 0 <= j' < j ==> Stem(entries[j'].name) != fileId
        {
          if Stem(entries[j].name) == fileId {
            assert FirstStem(entries, fileId) == j;
            return Ok(Some((cat, entries[j].name)));
          }
        }
        assert categories[i..][1..] == categories[i + 1..];
      }
      return Ok(None);
    }

    /** Unlinks the file `get_file_path(file_id)` finds and reports whether
        there was one; unlinking a directory fails. */
    method DeleteFile(fileId: string) returns (r: Result<bool, Exception>)
      requires Valid()
      modifies this
      ensures Valid()
      ensures var found := FindIn(old(dirs), Categories, fileId);
        && found.Ok?
        && (found.value.None? ==> r == Ok(false) && dirs == old(dirs))
        && (found.value.Some? ==>
              var c := found.value.value.0;
              var k := FirstStem(old(dirs)[c], fileId);
              && c in old(dirs) && 0 <= k < |old(dirs)[c]|
              && (old(dirs)[c][k].isFile ==> r == Ok(true) && dirs == old(dirs)[c := old(dirs)[c][..k] + old(dirs)[c][k + 1..]])
              && (!old(dirs)[c][k].isFile ==> r.Err? && dirs == old(dirs)))
    {
      FindInFacts(dirs, Categories, fileId);
      assert forall c :: c in Categories ==> c in dirs;
      var found := GetFilePath(fileId, None);
      var path := found.value;
      if path.None? {
        return Ok(false);
      }
      var (cat, name) := path.value;
      var entries := dirs[cat];
      var k := IndexOfName(entries, name);
      assert k == FirstStem(entries, fileId);
      if !entries[k].isFile {
        return Err(Exception("IsADirectoryError", PathText(uploadDir, (cat, name))));
      }
      dirs := dirs[cat := entries[..k] + entries[k + 1..]];
      return Ok(true);
    }

    /** Unlinks the regular files of `temp` older than the threshold and
        counts them; other directories are not touched. */
    method CleanupTempFiles(olderThanHours: int, now: real) returns (count: nat)
      requires Valid()
      modifies this
      ensures Valid()
      ensures dirs == old(dirs)["temp" := Fresh(old(dirs)["temp"], now, olderThanHours)]
      ensures count == |old(dirs)["temp"]| - |Fresh(old(dirs)["temp"], now, olderThanHours)|
    {
      var snapshot := dirs["temp"];
      var kept: seq<Entry> := [];
      count := 0;
      assert kept + snapshot[0..] == snapshot;
      assert dirs == old(dirs)["temp" := snapshot];
      for i := 0 to |snapshot|
        invariant kept == Fresh(snapshot[..i], now, olderThanHours)
        invariant count == i - |kept|
        invariant dirs == old(dirs)["temp" := kept + snapshot[i..]]
      {
        var e := snapshot[i];
        FreshStep(snapshot, i, kept, now, olderThanHours);
        if e.isFile {
          var fileAgeHours := (now - e.mtime) / 3600.0;
          if fileAgeHours > olderThanHours as real {
            dirs := dirs["temp" := kept + snapshot[i + 1..]];
            count := count + 1;
            continue;
          }
        }
        kept := kept + [e];
      }
      assert snapshot[..|snapshot|] == snapshot;
      assert kept + snapshot[|snapshot|..] == kept;
      FreshFacts(snapshot, now, olderThanHours);
    }
  }
}
