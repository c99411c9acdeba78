/**
 * The ingest step of script.py (`preprocess_data`): every PR or GHI file
 * yields one optional number, the numbers are merged into a dictionary keyed
 * by date with one slot per category, and the dictionary becomes a table of
 * rows sorted by date.
 *
 * Walking the directories and reading CSV text are outside the model: a
 * folder is given as the sequence of its files, each with its name (with
 * every `.csv` removed, as `file.replace` does) and the outcome of reading
 * it. The date parse `datetime.strptime(name, "%Y-%m-%d")` is a parameter
 * from name to day number (days since 1970-01-01), None where it raises.
 */
module Ingest {
  import opened Opt

  datatype Category = PR | GHI

  function Other(c: Category): Category
  {
    if c == PR then GHI else PR
  }

  /** The numeric columns of a CSV file, row by row; None is a missing cell. */
  type Table = seq<seq<Option<real>>>

  /** The outcome of `pd.read_csv`: a table, or an exception. */
  datatype ReadOutcome = Parsed(table: Table) | Unreadable

  datatype SourceFile = SourceFile(name: string, content: ReadOutcome)

  /** One of the two data folders, walked in the order PR then GHI. */
  datatype Folder = Folder(category: Category, files: seq<SourceFile>)

  type DateParser = string -> Option<int>

  // ---------------------------------------------------------------------
  // Extracting a file's value

  /** The first present cell of a row. */
  function FirstPresent(cells: seq<Option<real>>): (r: Option<real>)
    ensures r.None? <==> forall j :: 0 <= j < |cells| ==> cells[j].None?
    ensures r.Some? ==> exists j :: 0 <= j < |cells| && cells[j] == r && NoneBeforeInRow(cells, j)
  {
    if cells == [] then None
    else if cells[0].Some? then
      assert NoneBeforeInRow(cells, 0);
      cells[0]
    else
      var r := FirstPresent(cells[1..]);
      assert forall j :: 1 <= j < |cells| ==> cells[j] == cells[1..][j - 1];
      assert r.Some? ==> exists j :: 1 <= j < |cells| && cells[j] == r && NoneBeforeInRow(cells, j) by {
        if r.Some? {
          var j :| 0 <= j < |cells[1..]| && cells[1..][j] == r && NoneBeforeInRow(cells[1..], j);
          assert cells[j + 1] == r && NoneBeforeInRow(cells, j + 1);
        }
      }
      r
  }

  ghost predicate NoneBeforeInRow(cells: seq<Option<real>>, j: int)
    requires 0 <= j <= |cells|
  {
    forall j' :: 0 <= j' < j ==> cells[j'].None?
  }

  /** Every cell before (i, j) in row-major order is missing. */
  ghost predicate NoneBefore(t: Table, i: int, j: int)
    requires 0 <= i < |t| && 0 <= j <= |t[i]|
  {
    && (forall i', j' :: 0 <= i' < i && 0 <= j' < |t[i']| ==> t[i'][j'].None?)
    && NoneBeforeInRow(t[i], j)
  }

  /**
   * The value a file contributes: the first non-missing numeric cell of
   * `values.flatten()` (row-major order), or None when there is none.
   */
  function ExtractValue(t: Table): (r: Option<real>)
    ensures r.None? <==> forall i, j :: 0 <= i < |t| && 0 <= j < |t[i]| ==> t[i][j].None?
    ensures r.Some? ==> exists i, j :: 0 <= i < |t| && 0 <= j < |t[i]| && t[i][j] == r && NoneBefore(t, i, j)
  {
    if t == [] then None
    else
      match FirstPresent(t[0])
      case Some(v) =>
        assert exists j :: 0 <= j < |t[0]| && t[0][j] == Some(v) && NoneBefore(t, 0, j);
        Some(v)
      case None =>
        var r := ExtractValue(t[1..]);
        assert forall i :: 1 <= i < |t| ==> t[i] == t[1..][i - 1];
        assert r.Some? ==> exists i, j :: 0 <= i < |t| && 0 <= j < |t[i]| && t[i][j] == r && NoneBefore(t, i, j) by {
          if r.Some? {
            var i, j :| 0 <= i < |t[1..]| && 0 <= j < |t[1..][i]| && t[1..][i][j] == r && NoneBefore(t[1..], i, j);
            assert t[i + 1][j] == r && NoneBefore(t, i + 1, j);
          }
        }
        r
  }

  // ---------------------------------------------------------------------
  // The date-keyed dictionary `data_dict`

  /** The inner dictionary of one date; a missing key reads as None (`values.get`). */
  datatype Slots = Slots(pr: Option<real>, ghi: Option<real>)

  function Slot(s: Slots, c: Category): Option<real>
  {
    if c == PR then s.pr else s.ghi
  }

  /** `data_dict`: its entries, and its keys in insertion order as Python keeps them. */
  datatype Dict = Dict(order: seq<int>, entries: map<int, Slots>)

  const EmptyDict: Dict := Dict([], map[])

  /** The insertion order lists every key exactly once. */
  ghost predicate Valid(d: Dict)
  {
    && (forall i, j :: 0 <= i < j < |d.order| ==> d.order[i] != d.order[j])
    && (forall k :: k in d.entries <==> k in d.order)
  }

  /**
   * `data_dict.setdefault(date, {})[c] = v`: the date gets an entry if it had
   * none, its slot for c is overwritten, and nothing else changes.
   */
  function Put(d: Dict, date: int, c: Category, v: Option<real>): (r: Dict)
    ensures r.entries.Keys == d.entries.Keys + {date}
    ensures Slot(r.entries[date], c) == v
    ensures Slot(r.entries[date], Other(c)) == if date in d.entries then Slot(d.entries[date], Other(c)) else None
    ensures forall k :: k in d.entries && k != date ==> r.entries[k] == d.entries[k]
    ensures date in d.entries ==> r.order == d.order
    ensures date !in d.entries ==> r.order == d.order + [date]
    ensures Valid(d) ==> Valid(r)
  {
    var slots := if date in d.entries then d.entries[date] else Slots(None, None);
    var updated := if c == PR then slots.(pr := v) else slots.(ghi := v);
    Dict(if date in d.entries then d.order else d.order + [date], d.entries[date := updated])
  }

  /**
   * The date under which a file is stored, or None when the `try` block
   * raises before the store: the name fails the date parse or the read fails.
   */
  function AcceptedDate(f: SourceFile, parse: DateParser): Option<int>
  {
    match parse(f.name)
    case None => None
    case Some(date) => if f.content.Unreadable? then None else Some(date)
  }

  /** One pass of the inner loop body over a file. */
  function IngestFile(d: Dict, c: Category, f: SourceFile, parse: DateParser): (r: Dict)
    ensures AcceptedDate(f, parse).None? ==> r == d
    ensures AcceptedDate(f, parse).Some? ==>
      var date := AcceptedDate(f, parse).value;
      && f.content.Parsed?
      && r.entries.Keys == d.entries.Keys + {date}
      && Slot(r.entries[date], c) == ExtractValue(f.content.table)
      && Slot(r.entries[date], Other(c)) == (if date in d.entries then Slot(d.entries[date], Other(c)) else None)
      && (forall k :: k in d.entries && k != date ==> r.entries[k] == d.entries[k])
      && (date in d.entries ==> r.order == d.order)
      && (date !in d.entries ==> r.order == d.order + [date])
  {
    match parse(f.name)
    case None => d
    case Some(date) =>
      match f.content
      case Unreadable => d
      case Parsed(table) => Put(d, date, c, ExtractValue(table))
  }

  /** The files of one folder, taken in order. */
  function IngestFolder(d: Dict, c: Category, files: seq<SourceFile>, parse: DateParser): Dict
    decreases |files|
  {
    if files == [] then d
    else IngestFile(IngestFolder(d, c, files[..|files| - 1], parse), c, files[|files| - 1], parse)
  }

  /** All folders, taken in order, starting from an empty dictionary. */
  function IngestFolders(folders: seq<Folder>, parse: DateParser): Dict
    decreases |folders|
  {
    if folders == [] then EmptyDict
    else
      var last := folders[|folders| - 1];
      IngestFolder(IngestFolders(folders[..|folders| - 1], parse), last.category, last.files, parse)
  }

  /** The folders `preprocess_data` walks: PR first, then GHI. */
  function DataFolders(prFiles: seq<SourceFile>, ghiFiles: seq<SourceFile>): seq<Folder>
  {
    [Folder(PR, prFiles), Folder(GHI, ghiFiles)]
  }

  function Merged(prFiles: seq<SourceFile>, ghiFiles: seq<SourceFile>, parse: DateParser): Dict
  {
    IngestFolders(DataFolders(prFiles, ghiFiles), parse)
  }

  ghost predicate NoneAccepted(files: seq<SourceFile>, parse: DateParser)
  {
    forall i :: 0 <= i < |files| ==> AcceptedDate(files[i], parse).None?
  }

  lemma {:induction false} IngestFolderValid(d: Dict, c: Category, files: seq<SourceFile>, parse: DateParser)
    requires Valid(d)
    ensures Valid(IngestFolder(d, c, files, parse))
    decreases |files|
  {
    if files != [] {
      IngestFolderValid(d, c, files[..|files| - 1], parse);
    }
  }

  lemma {:induction false} IngestFoldersValid(folders: seq<Folder>, parse: DateParser)
    ensures Valid(IngestFolders(folders, parse))
    decreases |folders|
  {
    if folders != [] {
      var last := folders[|folders| - 1];
      IngestFoldersValid(folders[..|folders| - 1], parse);
      IngestFolderValid(IngestFolders(folders[..|folders| - 1], parse), last.category, last.files, parse);
    }
  }

  /** A folder adds exactly the dates of its accepted files to the dictionary. */
  lemma {:induction false} IngestFolderKeys(d: Dict, c: Category, files: seq<SourceFile>, parse: DateParser)
    ensures forall k :: k in IngestFolder(d, c, files, parse).entries <==>
      k in d.entries || exists i :: 0 <= i < |files| && AcceptedDate(files[i], parse) == Some(k)
    decreases |files|
  {
    if files != [] {
      var init := files[..|files| - 1];
      IngestFolderKeys(d, c, init, parse);
      assert forall i :: 0 <= i < |init| ==> init[i] == files[i];
    }
  }

  /** A folder of category c never changes the other category's slots; dates it creates hold None there. */
  lemma {:induction false} IngestFolderOtherSlot(d: Dict, c: Category, files: seq<SourceFile>, parse: DateParser)
    ensures var r := IngestFolder(d, c, files, parse);
      forall k :: k in r.entries ==>
        Slot(r.entries[k], Other(c)) == if k in d.entries then Slot(d.entries[k], Other(c)) else None
    decreases |files|
  {
    if files != [] {
      var init := files[..|files| - 1];
      var prev := IngestFolder(d, c, init, parse);
      IngestFolderOtherSlot(d, c, init, parse);
      IngestFolderKeys(d, c, init, parse);
      var r := IngestFolder(d, c, files, parse);
      assert r == IngestFile(prev, c, files[|files| - 1], parse);
      forall k | k in r.entries
        ensures Slot(r.entries[k], Other(c)) == if k in d.entries then Slot(d.entries[k], Other(c)) else None
      {
        if AcceptedDate(files[|files| - 1], parse) != Some(k) {
          assert k in prev.entries && r.entries[k] == prev.entries[k];
        }
      }
    }
  }

  /** A date no file of the folder is accepted under keeps its entry untouched. */
  lemma {:induction false} IngestFolderUntouched(d: Dict, c: Category, files: seq<SourceFile>, parse: DateParser, k: int)
    requires forall i :: 0 <= i < |files| ==> AcceptedDate(files[i], parse) != Some(k)
    ensures var r := IngestFolder(d, c, files, parse);
      (k in r.entries <==> k in d.entries) && (k in d.entries ==> r.entries[k] == d.entries[k])
    decreases |files|
  {
    if files != [] {
      IngestFolderUntouched(d, c, files[..|files| - 1], parse, k);
    }
  }

  /**
   * Last write wins: the slot of (date, c) holds the value of the last file
   * of the folder accepted under that date, even when that value is None.
   */
  lemma {:induction false} IngestFolderLastWrite(d: Dict, c: Category, files: seq<SourceFile>, parse: DateParser, i: int, k: int)
    requires 0 <= i < |files| && AcceptedDate(files[i], parse) == Some(k)
    requires forall j :: i < j < |files| ==> AcceptedDate(files[j], parse) != Some(k)
    ensures files[i].content.Parsed?
    ensures var r := IngestFolder(d, c, files, parse);
      k in r.entries && Slot(r.entries[k], c) == ExtractValue(files[i].content.table)
    decreases |files|
  {
    var n := |files|;
    var init := files[..n - 1];
    if i < n - 1 {
      assert forall j :: i < j < |init| ==> init[j] == files[j];
      IngestFolderLastWrite(d, c, init, parse, i, k);
    } else {
      assert init == files[..i];
    }
  }

  /** The dictionary's keys are exactly the dates of the accepted files, across all folders. */
  lemma {:induction false} IngestFoldersKeys(folders: seq<Folder>, parse: DateParser)
    ensures forall k :: k in IngestFolders(folders, parse).entries <==>
      exists f, i :: 0 <= f < |folders| && 0 <= i < |folders[f].files| && AcceptedDate(folders[f].files[i], parse) == Some(k)
    decreases |folders|
  {
    if folders != [] {
      var init := folders[..|folders| - 1];
      var last := folders[|folders| - 1];
      IngestFoldersKeys(init, parse);
      IngestFolderKeys(IngestFolders(init, parse), last.category, last.files, parse);
      assert forall f :: 0 <= f < |init| ==> init[f] == folders[f];
    }
  }

  /** The merged dictionary is the GHI folder ingested over the PR folder ingested over nothing. */
  lemma {:induction false} MergedUnfold(prFiles: seq<SourceFile>, ghiFiles: seq<SourceFile>, parse: DateParser)
    ensures Merged(prFiles, ghiFiles, parse) == IngestFolder(IngestFolder(EmptyDict, PR, prFiles, parse), GHI, ghiFiles, parse)
  {
    var folders := DataFolders(prFiles, ghiFiles);
    var first := [Folder(PR, prFiles)];
    assert folders[..1] == first && first[..0] == [];
    assert IngestFolders(first, parse) == IngestFolder(EmptyDict, PR, prFiles, parse);
    assert IngestFolders(folders, parse) == IngestFolder(IngestFolders(first, parse), GHI, ghiFiles, parse);
  }

  /** A date's PR is the value of the last PR file accepted under it. */
  lemma {:induction false} MergedPrLastWrite(prFiles: seq<SourceFile>, ghiFiles: seq<SourceFile>, parse: DateParser, i: int, k: int)
    requires 0 <= i < |prFiles| && AcceptedDate(prFiles[i], parse) == Some(k)
    requires forall j :: i < j < |prFiles| ==> AcceptedDate(prFiles[j], parse) != Some(k)
    ensures prFiles[i].content.Parsed?
    ensures k in Merged(prFiles, ghiFiles, parse).entries
    ensures Merged(prFiles, ghiFiles, parse).entries[k].pr == ExtractValue(prFiles[i].content.table)
  {
    var d1 := IngestFolder(EmptyDict, PR, prFiles, parse);
    MergedUnfold(prFiles, ghiFiles, parse);
    IngestFolderLastWrite(EmptyDict, PR, prFiles, parse, i, k);
    IngestFolderKeys(d1, GHI, ghiFiles, parse);
    IngestFolderOtherSlot(d1, GHI, ghiFiles, parse);
  }

  /** A date's GHI is the value of the last GHI file accepted under it. */
  lemma {:induction false} MergedGhiLastWrite(prFiles: seq<SourceFile>, ghiFiles: seq<SourceFile>, parse: DateParser, i: int, k: int)
    requires 0 <= i < |ghiFiles| && AcceptedDate(ghiFiles[i], parse) == Some(k)
    requires forall j :: i < j < |ghiFiles| ==> AcceptedDate(ghiFiles[j], parse) != Some(k)
    ensures ghiFiles[i].content.Parsed?
    ensures k in Merged(prFiles, ghiFiles, parse).entries
    ensures Merged(prFiles, ghiFiles, parse).entries[k].ghi == ExtractValue(ghiFiles[i].content.table)
  {
    MergedUnfold(prFiles, ghiFiles, parse);
    IngestFolderLastWrite(IngestFolder(EmptyDict, PR, prFiles, parse), GHI, ghiFiles, parse, i, k);
  }

  /** A date under which no PR file is accepted has no PR. */
  lemma {:induction false} MergedPrNone(prFiles: seq<SourceFile>, ghiFiles: seq<SourceFile>, parse: DateParser, k: int)
    requires forall j :: 0 <= j < |prFiles| ==> AcceptedDate(prFiles[j], parse) != Some(k)
    requires k in Merged(prFiles, ghiFiles, parse).entries
    ensures Merged(prFiles, ghiFiles, parse).entries[k].pr == None
  {
    var d1 := IngestFolder(EmptyDict, PR, prFiles, parse);
    MergedUnfold(prFiles, ghiFiles, parse);
    IngestFolderUntouched(EmptyDict, PR, prFiles, parse, k);
    IngestFolderOtherSlot(d1, GHI, ghiFiles, parse);
  }

  /** A date under which no GHI file is accepted has no GHI. */
  lemma {:induction false} MergedGhiNone(prFiles: seq<SourceFile>, ghiFiles: seq<SourceFile>, parse: DateParser, k: int)
    requires forall j :: 0 <= j < |ghiFiles| ==> AcceptedDate(ghiFiles[j], parse) != Some(k)
    requires k in Merged(prFiles, ghiFiles, parse).entries
    ensures Merged(prFiles, ghiFiles, parse).entries[k].ghi == None
  {
    var d1 := IngestFolder(EmptyDict, PR, prFiles, parse);
    MergedUnfold(prFiles, ghiFiles, parse);
    IngestFolderUntouched(d1, GHI, ghiFiles, parse, k);
    IngestFolderOtherSlot(EmptyDict, PR, prFiles, parse);
  }

  // ---------------------------------------------------------------------
  // Rows and the sort by date

  /** A row of the combined table: Date, GHI, PR. */
  datatype Record = Record(date: int, ghi: Option<real>, pr: Option<real>)

  /** `{"Date": date, "GHI": values.get("GHI"), "PR": values.get("PR")}` */
  function RowFor(d: Dict, date: int): Record
  {
    if date in d.entries then Record(date, d.entries[date].ghi, d.entries[date].pr)
    else Record(date, None, None)
  }

  /** The rows in dictionary order, before sorting. */
  function Rows(d: Dict): seq<Record>
  {
    seq(|d.order|, i requires 0 <= i < |d.order| => RowFor(d, d.order[i]))
  }

  ghost predicate Ascending(s: seq<Record>)
  {
    forall i, j :: 0 <= i < j < |s| ==> s[i].date <= s[j].date
  }

  ghost predicate StrictlyAscending(s: seq<Record>)
  {
    forall i, j :: 0 <= i < j < |s| ==> s[i].date < s[j].date
  }

  ghost predicate DistinctDates(s: seq<Record>)
  {
    forall i, j :: 0 <= i < j < |s| ==> s[i].date != s[j].date
  }

  /** Inserts x before the first row whose date is not smaller. */
  function Insert(x: Record, s: seq<Record>): (r: seq<Record>)
    ensures multiset(r) == multiset(s) + multiset{x}
  {
    if s == [] then [x]
    else if x.date <= s[0].date then [x] + s
    else
      assert s == [s[0]] + s[1..];
      [s[0]] + Insert(x, s[1..])
  }

  /** `sort_values("Date")`: a permutation of the rows in ascending date order. */
  function SortByDate(s: seq<Record>): (r: seq<Record>)
    ensures multiset(r) == multiset(s)
  {
    if s == [] then []
    else
      assert s == [s[0]] + s[1..];
      Insert(s[0], SortByDate(s[1..]))
  }

  lemma {:induction false} MultisetMembers(a: seq<Record>, b: seq<Record>)
    requires multiset(a) == multiset(b)
    ensures |a| == |b|
    ensures forall j :: 0 <= j < |a| ==> a[j] in b
  {
    assert |multiset(a)| == |multiset(b)|;
    forall j | 0 <= j < |a| ensures a[j] in b {
      assert a[j] in multiset(a);
    }
  }

  /** A bound below x and below every row of s is a bound below every row after inserting x. */
  lemma {:induction false} InsertBound(x: Record, s: seq<Record>, lo: int)
    requires lo <= x.date && forall i :: 0 <= i < |s| ==> lo <= s[i].date
    ensures forall i :: 0 <= i < |Insert(x, s)| ==> lo <= Insert(x, s)[i].date
    ensures lo < x.date && (forall i :: 0 <= i < |s| ==> lo < s[i].date) ==>
      forall i :: 0 <= i < |Insert(x, s)| ==> lo < Insert(x, s)[i].date
  {
    if s != [] && x.date > s[0].date {
      InsertBound(x, s[1..], lo);
    }
  }

  lemma {:induction false} InsertAscending(x: Record, s: seq<Record>)
    requires Ascending(s)
    ensures Ascending(Insert(x, s))
  {
    if s != [] && x.date > s[0].date {
      var rest := Insert(x, s[1..]);
      InsertAscending(x, s[1..]);
      InsertBound(x, s[1..], s[0].date);
      var r := [s[0]] + rest;
      forall i, j | 0 <= i < j < |r| ensures r[i].date <= r[j].date {
        if i > 0 {
          assert r[i] == rest[i - 1] && r[j] == rest[j - 1];
        }
      }
    }
  }

  lemma {:induction false} InsertStrictlyAscending(x: Record, s: seq<Record>)
    requires StrictlyAscending(s)
    requires forall i :: 0 <= i < |s| ==> s[i].date != x.date
    ensures StrictlyAscending(Insert(x, s))
  {
    if s != [] && x.date > s[0].date {
      var rest := Insert(x, s[1..]);
      InsertStrictlyAscending(x, s[1..]);
      InsertBound(x, s[1..], s[0].date);
      var r := [s[0]] + rest;
      forall i, j | 0 <= i < j < |r| ensures r[i].date < r[j].date {
        if i > 0 {
          assert r[i] == rest[i - 1] && r[j] == rest[j - 1];
        }
      }
    }
  }

  /** The sorted rows ascend by date, strictly when no two rows share a date. */
  lemma {:induction false} SortByDateAscending(s: seq<Record>)
    ensures |SortByDate(s)| == |s|
    ensures Ascending(SortByDate(s))
    ensures DistinctDates(s) ==> StrictlyAscending(SortByDate(s))
  {
    MultisetMembers(SortByDate(s), s);
    if s != [] {
      var rest := SortByDate(s[1..]);
      SortByDateAscending(s[1..]);
      InsertAscending(s[0], rest);
      if DistinctDates(s) {
        MultisetMembers(rest, s[1..]);
        assert DistinctDates(s[1..]);
        forall i | 0 <= i < |rest| ensures rest[i].date != s[0].date {
          var j :| 0 <= j < |s[1..]| && s[1..][j] == rest[i];
          assert s[j + 1] == rest[i];
        }
        InsertStrictlyAscending(s[0], rest);
      }
    }
  }

  /** Sorting a table that is already strictly ascending leaves it unchanged. */
  lemma {:induction false} SortSortedIsIdentity(s: seq<Record>)
    requires StrictlyAscending(s)
    ensures SortByDate(s) == s
  {
    if s != [] {
      SortSortedIsIdentity(s[1..]);
    }
  }

  /**
   * `preprocess_data`: walk the PR folder then the GHI folder, store each
   * accepted file's value in the date-keyed dictionary, turn the dictionary
   * into rows and sort them by date. An empty result stands for the empty
   * DataFrame returned when no row was produced.
   */
  method PreprocessData(prFiles: seq<SourceFile>, ghiFiles: seq<SourceFile>, parse: DateParser)
    returns (series: seq<Record>)
    ensures series == SortByDate(Rows(Merged(prFiles, ghiFiles, parse)))
    ensures StrictlyAscending(series)
    ensures forall i :: 0 <= i < |series| ==>
      series[i].date in Merged(prFiles, ghiFiles, parse).entries && series[i] == RowFor(Merged(prFiles, ghiFiles, parse), series[i].date)
    ensures forall k :: k in Merged(prFiles, ghiFiles, parse).entries <==> exists i :: 0 <= i < |series| && series[i].date == k
    ensures series == [] <==> NoneAccepted(prFiles, parse) && NoneAccepted(ghiFiles, parse)
  {
    var folders := DataFolders(prFiles, ghiFiles);
    var d := EmptyDict;
    for f := 0 to |folders|
      invariant d == IngestFolders(folders[..f], parse)
    {
      var folder := folders[f];
      ghost var start := d;
      var i := 0;
      while i < |folder.files|
        invariant 0 <= i <= |folder.files|
        invariant d == IngestFolder(start, folder.category, folder.files[..i], parse)
      {
        var file := folder.files[i];
        match parse(file.name) {
          case None =>
            // strptime raised: the file is skipped
          case Some(date) =>
            match file.content {
              case Unreadable =>
                // read_csv raised: the file is skipped
              case Parsed(table) =>
                var value := ExtractValue(table);
                d := Put(d, date, folder.category, value);
            }
        }
        assert folder.files[..i + 1][..i] == folder.files[..i];
        i := i + 1;
      }
      assert folder.files[..i] == folder.files;
      assert folders[..f + 1][..f] == folders[..f];
    }
    assert folders[..|folders|] == folders;

    var rows: seq<Record> := [];
    for j := 0 to |d.order|
      invariant rows == Rows(d)[..j]
    {
      rows := rows + [RowFor(d, d.order[j])];
    }
    assert rows == Rows(d);
    IngestFoldersValid(folders, parse);
    SortedRows(d);
    MergedEmpty(prFiles, ghiFiles, parse);
    if rows == [] {
      return [];
    }
    series := SortByDate(rows);
  }

  /** The rows of a valid dictionary: one per key, with that key's slots. */
  lemma {:induction false} RowsOfValid(d: Dict)
    requires Valid(d)
    ensures DistinctDates(Rows(d))
    ensures forall i :: 0 <= i < |Rows(d)| ==> Rows(d)[i].date in d.entries && Rows(d)[i] == RowFor(d, Rows(d)[i].date)
    ensures forall k :: k in d.entries ==> exists i :: 0 <= i < |Rows(d)| && Rows(d)[i].date == k
    ensures Rows(d) == [] <==> d.entries == map[]
  {
    var rows := Rows(d);
    forall k | k in d.entries ensures exists i :: 0 <= i < |rows| && rows[i].date == k {
      var j :| 0 <= j < |d.order| && d.order[j] == k;
      assert rows[j].date == k;
    }
    assert d.order != [] ==> d.order[0] in d.entries;
    if rows == [] {
      assert forall k :: k !in d.entries;
      assert d.entries == map[];
    }
  }

  /** What sorting the rows of a dictionary yields: one row per key, strictly ascending. */
  lemma {:induction false} SortedRows(d: Dict)
    requires Valid(d)
    ensures var series := SortByDate(Rows(d));
      && StrictlyAscending(series)
      && (forall i :: 0 <= i < |series| ==> series[i].date in d.entries && series[i] == RowFor(d, series[i].date))
      && (forall k :: k in d.entries <==> exists i :: 0 <= i < |series| && series[i].date == k)
      && (series == [] <==> d.entries == map[])
  {
    var rows := Rows(d);
    var series := SortByDate(rows);
    RowsOfValid(d);
    SortByDateAscending(rows);
    MultisetMembers(series, rows);
    MultisetMembers(rows, series);
    forall k | k in d.entries ensures exists i :: 0 <= i < |series| && series[i].date == k {
      var j :| 0 <= j < |rows| && rows[j].date == k;
      var i :| 0 <= i < |series| && series[i] == rows[j];
    }
  }

  /** The merged dictionary is empty exactly when no file of either folder is accepted. */
  lemma {:induction false} MergedEmpty(prFiles: seq<SourceFile>, ghiFiles: seq<SourceFile>, parse: DateParser)
    ensures Merged(prFiles, ghiFiles, parse).entries == map[] <==> NoneAccepted(prFiles, parse) && NoneAccepted(ghiFiles, parse)
  {
    var folders := DataFolders(prFiles, ghiFiles);
    var m := Merged(prFiles, ghiFiles, parse);
    IngestFoldersKeys(folders, parse);
    if !NoneAccepted(prFiles, parse) {
      var i :| 0 <= i < |prFiles| && AcceptedDate(prFiles[i], parse).Some?;
      assert AcceptedDate(folders[0].files[i], parse) == Some(AcceptedDate(prFiles[i], parse).value);
      assert AcceptedDate(prFiles[i], parse).value in m.entries;
    } else if !NoneAccepted(ghiFiles, parse) {
      var i :| 0 <= i < |ghiFiles| && AcceptedDate(ghiFiles[i], parse).Some?;
      assert AcceptedDate(folders[1].files[i], parse) == Some(AcceptedDate(ghiFiles[i], parse).value);
      assert AcceptedDate(ghiFiles[i], parse).value in m.entries;
    } else {
      assert forall f, i :: 0 <= f < |folders| && 0 <= i < |folders[f].files| ==>
        AcceptedDate(folders[f].files[i], parse).None?;
      assert forall k :: k !in m.entries;
    }
  }
}
