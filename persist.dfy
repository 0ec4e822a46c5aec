/** Where a downloaded table is written and how it meets what is already there:
    the storage format chosen from the folder path, the file name, and the
    merge-or-overwrite rule of `save_data_to_file`. The file system is a map
    from path to file contents. */
module Persist {
  import opened Wrappers
  import opened Text
  import opened Tables

  /** What reading a stored data file gives: its table, or an error (a file the
      reader cannot parse). */
  datatype DataFile = Stored(table: Table) | Unreadable

  type Store = map<string, DataFile>

  datatype Format = Csv | Parquet

  /** Backslashes read as forward slashes, as the format test does before it
      looks at the path. */
  function Normalize(p: string): (r: string)
    ensures |r| == |p|
    ensures forall i :: 0 <= i < |p| ==> r[i] == (if p[i] == '\\' then '/' else p[i])
  {
    seq(|p|, i requires 0 <= i < |p| => if p[i] == '\\' then '/' else p[i])
  }

  /** Reference and daily folders hold CSV, minute folders Parquet, anything
      else CSV; the first rule that applies wins. */
  function DataFormat(path: string): Format {
    var q := Normalize(path);
    if Contains(q, "/reference/") then Csv
    else if Contains(q, "/daily/") then Csv
    else if Contains(q, "/minute_") then Parquet
    else Csv
  }

  function Extension(f: Format): string {
    match f
    case Csv => ".csv"
    case Parquet => ".parquet"
  }

  /** `Path(dir) / name`. */
  function Join(dir: string, name: string): string {
    dir + "/" + name
  }

  /** The file of one instrument in a folder, with the extension the folder's
      format calls for. */
  function GetDataFilePath(base: string, code: string): string {
    Join(base, code + Extension(DataFormat(base)))
  }

  /** The position of the last `c` in `s`, or -1 when there is none. */
  function LastIndexOf(s: string, c: char): (i: int)
    ensures -1 <= i < |s|
    ensures i >= 0 ==> s[i] == c
    ensures forall j :: i < j < |s| ==> s[j] != c
  {
    if s == [] then -1
    else if s[|s| - 1] == c then |s| - 1
    else LastIndexOf(s[..|s| - 1], c)
  }

  /** `PurePath.with_suffix`: the suffix of the last path component -- from its
      last '.', unless that '.' starts or ends the name -- replaced by `suffix`. */
  function WithSuffix(path: string, suffix: string): string {
    var slash := LastIndexOf(path, '/');
    path[..slash + 1] + NameWithSuffix(path[slash + 1..], suffix)
  }

  /** The same on a bare file name. */
  function NameWithSuffix(name: string, suffix: string): string {
    var dot := LastIndexOf(name, '.');
    (if 0 < dot < |name| - 1 then name[..dot] else name) + suffix
  }

  /** The path the save actually writes: the given path with the extension of the
      format judged on that path. */
  function SaveTarget(path: string): string {
    WithSuffix(path, Extension(DataFormat(path)))
  }

  /** A path without backslashes is its own normal form. */
  lemma NormalizePlain(p: string)
    requires forall i :: 0 <= i < |p| ==> p[i] != '\\'
    ensures Normalize(p) == p
  {
  }

  /** Any path with a '/daily/' or '/reference/' segment is stored as CSV, and a
      Parquet file always lies under a '/minute_' folder. */
  lemma FormatRules(path: string)
    requires forall i :: 0 <= i < |path| ==> path[i] != '\\'
    ensures Contains(path, "/daily/") ==> DataFormat(path) == Csv
    ensures Contains(path, "/reference/") ==> DataFormat(path) == Csv
    ensures DataFormat(path) == Parquet ==> Contains(path, "/minute_")
  {
    NormalizePlain(path);
  }

  /** The last '/' of `a + b` is the last character of `a` when `b` has none. */
  lemma LastIndexOfJoin(a: string, b: string, c: char)
    requires a != [] && a[|a| - 1] == c
    requires forall j :: 0 <= j < |b| ==> b[j] != c
    ensures LastIndexOf(a + b, c) == |a| - 1
  {
    var s := a + b;
    assert s[|a| - 1] == c;
    assert forall j :: |a| <= j < |s| ==> s[j] == b[j - |a|];
  }

  /** An instrument's file name re-suffixed keeps the code, dots and all. */
  lemma NameWithSuffixRenames(code: string, f: Format, suffix: string)
    requires code != []
    ensures NameWithSuffix(code + Extension(f), suffix) == code + suffix
  {
    var e := Extension(f);
    assert e[0] == '.' && |e| > 1;
    assert forall j :: 0 <= j < |e[1..]| ==> e[1..][j] != '.';
    LastIndexOfJoin(code + ".", e[1..], '.');
    assert code + e == (code + ".") + e[1..];
    assert (code + e)[..|code|] == code;
  }

  /** Re-suffixing an instrument's file changes only its extension: the folder and
      the instrument code (which may itself contain dots) stay as they are. */
  lemma WithSuffixRenames(base: string, code: string, f: Format, g: Format)
    requires code != []
    requires forall j :: 0 <= j < |code| ==> code[j] != '/'
    ensures WithSuffix(Join(base, code + Extension(f)), Extension(g)) == Join(base, code + Extension(g))
  {
    var name := code + Extension(f);
    var path := (base + "/") + name;
    assert Join(base, name) == path;
    assert Extension(f)[0] == '.' && forall j :: 0 <= j < |Extension(f)| ==> Extension(f)[j] != '/';
    assert forall j :: 0 <= j < |name| ==> name[j] != '/';
    LastIndexOfJoin(base + "/", name, '/');
    assert path[|base| + 1..] == name;
    assert path[..|base| + 1] == base + "/";
    NameWithSuffixRenames(code, f, Extension(g));
  }

  /** The file written for an instrument is the one `GetDataFilePath` names, up to
      the extension; it is exactly that file when the folder and the full path
      call for the same format. */
  lemma SaveTargetOfDataFile(base: string, code: string)
    requires code != []
    requires forall j :: 0 <= j < |code| ==> code[j] != '/'
    ensures SaveTarget(GetDataFilePath(base, code)) == Join(base, code + Extension(DataFormat(GetDataFilePath(base, code))))
    ensures DataFormat(GetDataFilePath(base, code)) == DataFormat(base) ==>
      SaveTarget(GetDataFilePath(base, code)) == GetDataFilePath(base, code)
  {
    WithSuffixRenames(base, code, DataFormat(base), DataFormat(GetDataFilePath(base, code)));
  }

  /** `append=None` means "merge" exactly in incremental mode. */
  function AppendChosen(append: Option<bool>, mode: string): (b: bool)
    ensures append.None? ==> (b <==> mode == "incremental")
    ensures append.Some? ==> b == append.value
  {
    match append
    case Some(a) => a
    case None => mode == "incremental"
  }

  /** A new table written over whatever was there: rows with a date or time key are
      sorted by code ascending and key descending, others kept in order. */
  function Overwritten(data: Table): Table {
    if data.column == NoKey then data else Table(data.column, SortRows(data.rows))
  }

  /** The key column of stored and new rows concatenated: a date column wins over a
      time column. */
  function CombinedColumn(a: KeyColumn, b: KeyColumn): KeyColumn {
    if a == TradeDate || b == TradeDate then TradeDate
    else if a == TradeTime || b == TradeTime then TradeTime
    else NoKey
  }

  /** Stored rows followed by the new ones; with a key column, duplicates keep their
      last copy and the result is sorted. */
  function Merged(existing: Table, data: Table): Table {
    var column := CombinedColumn(existing.column, data.column);
    if column == NoKey then Table(NoKey, existing.rows + data.rows)
    else Table(column, MergeRows(existing.rows, data.rows))
  }

  /** The store after `save_data_to_file(data, path, append)` under update mode
      `mode`. */
  function SaveSpec(files: Store, data: Table, path: string, append: Option<bool>, mode: string): Store {
    if data.rows == [] then files
    else files[SaveTarget(path) := Written(files, data, path, append, mode)]
  }

  /** What a save of non-empty rows writes to its target: the merge when a merge is
      asked for and the target exists (the new rows alone when it cannot be read),
      the new rows otherwise. */
  function Written(files: Store, data: Table, path: string, append: Option<bool>, mode: string): DataFile {
    var target := SaveTarget(path);
    if AppendChosen(append, mode) && target in files then
      match files[target]
      case Stored(existing) => Stored(Merged(existing, data))
      case Unreadable => Stored(data)
    else Stored(Overwritten(data))
  }

  /** An empty table writes nothing; any other save writes exactly one file, the
      save target, and leaves every other file as it was. */
  lemma SaveFrame(files: Store, data: Table, path: string, append: Option<bool>, mode: string)
    ensures data.rows == [] ==> SaveSpec(files, data, path, append, mode) == files
    ensures data.rows != [] ==> SaveTarget(path) in SaveSpec(files, data, path, append, mode)
    ensures forall p :: p != SaveTarget(path) ==>
      (p in SaveSpec(files, data, path, append, mode) <==> p in files)
    ensures forall p :: p != SaveTarget(path) && p in files ==>
      SaveSpec(files, data, path, append, mode)[p] == files[p]
  {
    if data.rows != [] {
      var t := SaveTarget(path);
      var w := Written(files, data, path, append, mode);
      assert SaveSpec(files, data, path, append, mode) == files[t := w];
    }
  }

  /** Overwriting (no merge asked, or nothing there yet): the file holds the new rows
      and nothing else, sorted when they are keyed by date or time. */
  lemma SaveOverwrite(files: Store, data: Table, path: string, append: Option<bool>, mode: string)
    requires data.rows != []
    requires !AppendChosen(append, mode) || SaveTarget(path) !in files
    ensures SaveSpec(files, data, path, append, mode)[SaveTarget(path)].Stored?
    ensures SaveSpec(files, data, path, append, mode)[SaveTarget(path)].table.column == data.column
    ensures multiset(SaveSpec(files, data, path, append, mode)[SaveTarget(path)].table.rows) == multiset(data.rows)
    ensures data.column != NoKey ==> Sorted(SaveSpec(files, data, path, append, mode)[SaveTarget(path)].table.rows)
  {
    SortRowsSpec(data.rows);
  }

  /** Merging into a readable file with a date or time key: every stored or new key
      appears once, the new row wins a clash, the old row survives otherwise, and
      the rows are sorted. */
  lemma SaveMerge(files: Store, data: Table, path: string, append: Option<bool>, mode: string)
    requires data.rows != []
    requires AppendChosen(append, mode) && SaveTarget(path) in files
    requires files[SaveTarget(path)].Stored?
    requires CombinedColumn(files[SaveTarget(path)].table.column, data.column) != NoKey
    ensures SaveSpec(files, data, path, append, mode)[SaveTarget(path)].Stored?
    ensures var before := files[SaveTarget(path)].table.rows;
      var after := SaveSpec(files, data, path, append, mode)[SaveTarget(path)].table.rows;
      && Sorted(after) && UniqueKeys(after)
      && Keys(after) == Keys(before) + Keys(data.rows)
      && (forall x :: x in after && KeyOf(x) in Keys(data.rows) ==> x == LastRowOf(data.rows, KeyOf(x)))
      && (forall x :: x in after && KeyOf(x) !in Keys(data.rows) ==>
            KeyOf(x) in Keys(before) && x == LastRowOf(before, KeyOf(x)))
      && (UniqueKeys(before) && UniqueKeys(data.rows) ==>
            |after| == |before| + |data.rows| - |Keys(before) * Keys(data.rows)|)
  {
    var before := files[SaveTarget(path)].table.rows;
    MergeRowsSpec(before, data.rows);
    if UniqueKeys(before) && UniqueKeys(data.rows) {
      MergeRowsCount(before, data.rows);
    }
  }

  /** Merging keyless tables appends the new rows after the stored ones; a stored
      file that cannot be read is replaced by the new rows as they came. */
  lemma SaveAppendOrFallback(files: Store, data: Table, path: string, append: Option<bool>, mode: string)
    requires data.rows != []
    requires AppendChosen(append, mode) && SaveTarget(path) in files
    ensures files[SaveTarget(path)].Unreadable? ==>
      SaveSpec(files, data, path, append, mode)[SaveTarget(path)] == Stored(data)
    ensures files[SaveTarget(path)].Stored? && files[SaveTarget(path)].table.column == NoKey && data.column == NoKey ==>
      SaveSpec(files, data, path, append, mode)[SaveTarget(path)].table.rows == files[SaveTarget(path)].table.rows + data.rows
  {
  }

  /** What a merge-mode save leaves at its target, case by case. */
  lemma SaveAppendTarget(files: Store, data: Table, path: string, mode: string)
    requires data.rows != []
    ensures SaveTarget(path) in files && files[SaveTarget(path)].Stored? ==>
      SaveSpec(files, data, path, Some(true), mode)[SaveTarget(path)] == Stored(Merged(files[SaveTarget(path)].table, data))
    ensures SaveTarget(path) in files && files[SaveTarget(path)].Unreadable? ==>
      SaveSpec(files, data, path, Some(true), mode)[SaveTarget(path)] == Stored(data)
    ensures SaveTarget(path) !in files ==>
      SaveSpec(files, data, path, Some(true), mode)[SaveTarget(path)] == Stored(Overwritten(data))
  {
  }

  /** Saving the same rows again in merge mode adds no row: the file keeps the same
      keys, once each, still sorted. */
  lemma SaveMergeRepeat(files: Store, data: Table, path: string, mode: string)
    requires data.rows != [] && data.column != NoKey
    ensures SaveSpec(files, data, path, Some(true), mode)[SaveTarget(path)].Stored?
    ensures SaveSpec(SaveSpec(files, data, path, Some(true), mode), data, path, Some(true), mode)[SaveTarget(path)].Stored?
    ensures var once := SaveSpec(files, data, path, Some(true), mode)[SaveTarget(path)].table.rows;
      var twice := SaveSpec(SaveSpec(files, data, path, Some(true), mode), data, path, Some(true), mode)[SaveTarget(path)].table.rows;
      Keys(twice) == Keys(once) && UniqueKeys(twice) && Sorted(twice) && |twice| <= |once|
  {
    var t := SaveTarget(path);
    var files1 := SaveSpec(files, data, path, Some(true), mode);
    FirstMergeSave(files, data, path, mode);
    SaveAppendTarget(files1, data, path, mode);
    var first := files1[t].table;
    assert SaveSpec(files1, data, path, Some(true), mode)[t] == Stored(Merged(first, data));
    MergeRowsSpec(first.rows, data.rows);
    KeysBound(first.rows);
  }

  /** After one merge-mode save the target is stored, keyed, and holds every key
      saved. */
  lemma FirstMergeSave(files: Store, data: Table, path: string, mode: string)
    requires data.rows != [] && data.column != NoKey
    ensures var after := SaveSpec(files, data, path, Some(true), mode);
      SaveTarget(path) in after && after[SaveTarget(path)].Stored? &&
      after[SaveTarget(path)].table.column != NoKey &&
      Keys(data.rows) <= Keys(after[SaveTarget(path)].table.rows)
  {
    var t := SaveTarget(path);
    SaveAppendTarget(files, data, path, mode);
    if t in files && files[t].Stored? {
      MergeRowsSpec(files[t].table.rows, data.rows);
    } else if t !in files {
      SortRowsSpec(data.rows);
      PermutationKeys(SortRows(data.rows), data.rows);
    }
  }
}
