/** The file manager's listing and navigation logic: the icon of each entry,
    the order of the listing (directories first, then by lower-cased name),
    the folder and file counts in the status bar, and the current folder and
    clipboard that the toolbar buttons change. Reading directories, file
    sizes and copying files are outside the model: a directory's entries come
    in as data, and pasting yields the copy or move operations to perform. */
module FileManager {
  import opened Text

  /** An absolute path, as its segments below the root. */
  type Path = seq<string>

  /** `Path.parent`: the root is its own parent. */
  function Parent(p: Path): (q: Path)
    ensures p == [] ==> q == p
    ensures p != [] ==> |q| == |p| - 1 && q == p[..|p| - 1]
  {
    if p == [] then p else p[..|p| - 1]
  }

  /** `str(path)` */
  function Render(p: Path): (s: string)
    ensures |s| >= 1 && s[0] == '/'
  {
    "/" + Join(p, "/")
  }

  /** `Path.suffix`: from the last '.' on, when that dot is neither the first
      nor the last character of the name; empty otherwise. */
  function Suffix(name: string): (r: string)
    ensures r == [] || (r[0] == '.' && |r| >= 2 && |r| < |name| && EndsWith(name, r) && '.' !in r[1..])
    ensures r == [] <==> |name| < 2 || '.' !in name[1..] || name[|name| - 1] == '.'
  {
    var i := LastIndexOf(name, '.');
    if i.Some? && 0 < i.value < |name| - 1 then
      var r := name[i.value..];
      assert r[1..] == name[i.value + 1..];
      assert name[1..][i.value - 1] == '.';
      assert name[|name| - 1] == name[i.value + 1..][|name| - 2 - i.value];
      r
    else
      ""
  }

  /** The index of the last occurrence of `c`. */
  function LastIndexOf(s: string, c: char): (r: Option<nat>)
    ensures r.None? <==> c !in s
    ensures r.Some? ==> r.value < |s| && s[r.value] == c && c !in s[r.value + 1..]
  {
    if s == [] then None
    else if s[|s| - 1] == c then
      assert s[|s|..] == [];
      Some(|s| - 1)
    else
      var r := LastIndexOf(s[..|s| - 1], c);
      assert s == s[..|s| - 1] + [s[|s| - 1]];
      if r.Some? then
        assert s[r.value + 1..] == s[..|s| - 1][r.value + 1..] + [s[|s| - 1]];
        r
      else r
  }

  datatype Icon = Folder | Picture | Document | Video | Music | Archive | Other

  const PictureSuffixes: seq<string> := [".jpg", ".jpeg", ".png", ".gif", ".bmp"]
  const DocumentSuffixes: seq<string> := [".txt", ".md", ".py", ".js", ".html", ".css"]
  const VideoSuffixes: seq<string> := [".mp4", ".avi", ".mkv", ".mov"]
  const MusicSuffixes: seq<string> := [".mp3", ".wav", ".flac"]
  const ArchiveSuffixes: seq<string> := [".zip", ".rar", ".7z", ".tar"]

  /** `get_file_icon`: a directory is a folder; otherwise the lower-cased
      suffix picks the first group that lists it. */
  function FileIcon(isDir: bool, name: string): (icon: Icon)
    ensures isDir <==> icon == Folder
    ensures !isDir && Suffix(name) == [] ==> icon == Other
    ensures icon == Picture <==> !isDir && Lower(Suffix(name)) in PictureSuffixes
    ensures icon == Document <==> (!isDir && Lower(Suffix(name)) !in PictureSuffixes
      && Lower(Suffix(name)) in DocumentSuffixes)
    ensures icon == Video <==> (!isDir && Lower(Suffix(name)) !in PictureSuffixes + DocumentSuffixes
      && Lower(Suffix(name)) in VideoSuffixes)
    ensures icon == Music <==> (!isDir && Lower(Suffix(name)) !in PictureSuffixes + DocumentSuffixes + VideoSuffixes
      && Lower(Suffix(name)) in MusicSuffixes)
    ensures icon == Archive <==> (!isDir && Lower(Suffix(name)) !in PictureSuffixes + DocumentSuffixes + VideoSuffixes
      + MusicSuffixes && Lower(Suffix(name)) in ArchiveSuffixes)
    ensures icon == Other <==> (!isDir && Lower(Suffix(name)) !in PictureSuffixes + DocumentSuffixes
      + VideoSuffixes + MusicSuffixes + ArchiveSuffixes)
  {
    var ext := Lower(Suffix(name));
    if isDir then Folder
    else if ext in PictureSuffixes then Picture
    else if ext in DocumentSuffixes then Document
    else if ext in VideoSuffixes then Video
    else if ext in MusicSuffixes then Music
    else if ext in ArchiveSuffixes then Archive
    else Other
  }

  /** No suffix is listed in two groups. */
  lemma GroupsDisjoint(ext: string)
    ensures ext in DocumentSuffixes + VideoSuffixes + MusicSuffixes + ArchiveSuffixes ==> ext !in PictureSuffixes
    ensures ext in VideoSuffixes + MusicSuffixes + ArchiveSuffixes ==> ext !in DocumentSuffixes
    ensures ext in MusicSuffixes + ArchiveSuffixes ==> ext !in VideoSuffixes
    ensures ext in ArchiveSuffixes ==> ext !in MusicSuffixes
  {
  }

  /** So the order of the tests only matters for the default icon: each
      listed suffix gets its own group's icon. */
  lemma ListedSuffixIcon(name: string)
    ensures Lower(Suffix(name)) in DocumentSuffixes ==> FileIcon(false, name) == Document
    ensures Lower(Suffix(name)) in VideoSuffixes ==> FileIcon(false, name) == Video
    ensures Lower(Suffix(name)) in MusicSuffixes ==> FileIcon(false, name) == Music
    ensures Lower(Suffix(name)) in ArchiveSuffixes ==> FileIcon(false, name) == Archive
  {
    GroupsDisjoint(Lower(Suffix(name)));
  }

  /** A name without a dot, or with its only dot in front, gets the default icon. */
  lemma NoSuffixDefaultIcon(name: string)
    requires '.' !in name || (name != [] && name[0] == '.' && '.' !in name[1..])
    ensures FileIcon(false, name) == Other
  {
  }

  // ------------------------------------------------------------ listing order

  /** Python's string order: code point by code point, a prefix first. */
  predicate LexLe(a: string, b: string)
    decreases |a|
  {
    if a == [] then true
    else if b == [] then false
    else if a[0] != b[0] then a[0] < b[0]
    else LexLe(a[1..], b[1..])
  }

  lemma {:induction false} LexLeTotal(a: string, b: string)
    ensures LexLe(a, b) || LexLe(b, a)
    decreases |a|
  {
    if a != [] && b != [] && a[0] == b[0] {
      LexLeTotal(a[1..], b[1..]);
    }
  }

  lemma {:induction false} LexLeTrans(a: string, b: string, c: string)
    requires LexLe(a, b) && LexLe(b, c)
    ensures LexLe(a, c)
    decreases |a|
  {
    if a != [] && b != [] && c != [] && a[0] == b[0] && b[0] == c[0] {
      LexLeTrans(a[1..], b[1..], c[1..]);
    }
  }

  /** One entry of a directory: what `iterdir` and `stat` report, with the
      text `format_size` gives for a file. */
  datatype Item = Item(name: string, isDir: bool, isFile: bool, sizeText: string, path: Path)

  /** The sort key `(not x.is_dir(), x.name.lower())`, as a comparison. */
  predicate KeyLe(x: Item, y: Item)
  {
    (x.isDir && !y.isDir) || (x.isDir == y.isDir && LexLe(Lower(x.name), Lower(y.name)))
  }

  lemma KeyLeTotal(x: Item, y: Item)
    ensures KeyLe(x, y) || KeyLe(y, x)
  {
    LexLeTotal(Lower(x.name), Lower(y.name));
  }

  lemma KeyLeTrans(x: Item, y: Item, z: Item)
    requires KeyLe(x, y) && KeyLe(y, z)
    ensures KeyLe(x, z)
  {
    if x.isDir == y.isDir == z.isDir {
      LexLeTrans(Lower(x.name), Lower(y.name), Lower(z.name));
    }
  }

  predicate Ordered(s: seq<Item>)
  {
    forall i, j :: 0 <= i < j < |s| ==> KeyLe(s[i], s[j])
  }

  /** Insert `x` before the first entry it does not follow, so that entries
      with equal keys keep their order. */
  function Insert(x: Item, s: seq<Item>): (r: seq<Item>)
    ensures |r| == |s| + 1
    ensures multiset(r) == multiset(s) + multiset{x}
  {
    if s == [] || KeyLe(x, s[0]) then [x] + s
    else
      assert s == [s[0]] + s[1..];
      [s[0]] + Insert(x, s[1..])
  }

  /** `sorted(path.iterdir(), key=...)` */
  function SortListing(s: seq<Item>): (r: seq<Item>)
    ensures |r| == |s|
    ensures multiset(r) == multiset(s)
  {
    if s == [] then []
    else
      assert s == [s[0]] + s[1..];
      Insert(s[0], SortListing(s[1..]))
  }

  lemma {:induction false} InsertOrdered(x: Item, s: seq<Item>)
    requires Ordered(s)
    ensures Ordered(Insert(x, s))
  {
    var r := Insert(x, s);
    if s == [] {
    } else if KeyLe(x, s[0]) {
      forall k | 0 <= k < |s| ensures KeyLe(x, s[k]) {
        if k > 0 { KeyLeTrans(x, s[0], s[k]); }
      }
      assert forall j :: 1 <= j < |r| ==> r[j] == s[j - 1];
    } else {
      KeyLeTotal(x, s[0]);
      InsertOrdered(x, s[1..]);
      var t := Insert(x, s[1..]);
      assert r == [s[0]] + t;
      forall k | 0 <= k < |t| ensures KeyLe(s[0], t[k]) {
        assert t[k] in multiset(t);
        assert t[k] in multiset(s[1..]) + multiset{x};
        if t[k] != x {
          assert t[k] in s[1..];
          var m :| 0 <= m < |s[1..]| && s[1..][m] == t[k];
          assert s[m + 1] == t[k];
        }
      }
    }
  }

  lemma {:induction false} SortOrdered(s: seq<Item>)
    ensures Ordered(SortListing(s))
  {
    if s != [] {
      SortOrdered(s[1..]);
      InsertOrdered(s[0], SortListing(s[1..]));
    }
  }

  /** The listing shows every directory before every file, and names in
      each group in lower-cased order; it holds the same entries. */
  lemma ListingOrder(s: seq<Item>)
    ensures multiset(SortListing(s)) == multiset(s)
    ensures forall i, j :: 0 <= i < j < |s| && SortListing(s)[j].isDir ==> SortListing(s)[i].isDir
    ensures forall i, j :: 0 <= i < j < |s| && SortListing(s)[i].isDir == SortListing(s)[j].isDir ==>
      LexLe(Lower(SortListing(s)[i].name), Lower(SortListing(s)[j].name))
  {
    SortOrdered(s);
  }

  // ------------------------------------------------------------ rows and counts

  /** A row of the file table: icon, name, size column and full path. */
  datatype Row = Row(icon: Icon, name: string, size: string, fullPath: string, path: Path, isDir: bool)

  function RowOf(x: Item): Row
  {
    Row(FileIcon(x.isDir, x.name), x.name, SizeColumn(x), Render(x.path), x.path, x.isDir)
  }

  /** `get_directory_contents`: the rows of the sorted entries. */
  function Contents(items: seq<Item>): (rows: seq<Row>)
    ensures |rows| == |items|
    ensures forall i :: 0 <= i < |items| ==> rows[i] == RowOf(SortListing(items)[i])
    ensures forall i :: 0 <= i < |items| ==> rows[i].size == SizeColumn(SortListing(items)[i])
  {
    var sorted := SortListing(items);
    seq(|sorted|, i requires 0 <= i < |sorted| => RowOf(sorted[i]))
  }

  /** The folders count: rows whose size column contains '<DIR>'. */
  function DirCount(rows: seq<Row>): (n: nat)
    ensures n <= |rows|
  {
    if rows == [] then 0
    else DirCount(rows[..|rows| - 1]) + (if Contains(rows[|rows| - 1].size, "<DIR>") then 1 else 0)
  }

  /** The status bar: folders and files add up to the rows shown. */
  function StatusCounts(rows: seq<Row>): (counts: (nat, nat))
    ensures counts.0 + counts.1 == |rows|
  {
    (DirCount(rows), |rows| - DirCount(rows))
  }

  function NonFileCount(items: seq<Item>): nat
  {
    if items == [] then 0 else NonFileCount(items[..|items| - 1]) + (if items[|items| - 1].isFile then 0 else 1)
  }

  /** The size column of an entry: its size text for a file, '<DIR>' otherwise. */
  function SizeColumn(x: Item): (size: string)
    ensures !x.isFile ==> size == "<DIR>"
    ensures x.isFile ==> size == x.sizeText
  {
    if x.isFile then x.sizeText else "<DIR>"
  }

  /** Rows whose size columns are those of `items` count one folder per
      entry that is not a file, provided no file's size text contains '<DIR>'. */
  lemma {:induction false} DirCountOfRows(rows: seq<Row>, items: seq<Item>)
    requires |rows| == |items|
    requires forall i :: 0 <= i < |items| ==> rows[i].size == SizeColumn(items[i])
    requires NoDirText(items)
    ensures DirCount(rows) == NonFileCount(items)
  {
    if items != [] {
      var n := |items| - 1;
      DirCountOfRows(rows[..n], items[..n]);
      if !items[n].isFile {
        var dir := "<DIR>";
        assert Contains(dir, dir) by { assert dir[0..|dir|] == dir; }
      }
    }
  }

  lemma {:induction false} NonFileCountPermutation(a: seq<Item>, b: seq<Item>)
    requires multiset(a) == multiset(b)
    ensures NonFileCount(a) == NonFileCount(b)
    decreases |a|
  {
    if a != [] {
      var x := a[|a| - 1];
      assert x in multiset(b);
      var k :| 0 <= k < |b| && b[k] == x;
      var b' := b[..k] + b[k + 1..];
      assert b == b[..k] + [x] + b[k + 1..];
      assert a == a[..|a| - 1] + [x];
      assert multiset(a) == multiset(a[..|a| - 1]) + multiset{x};
      assert multiset(b) == multiset(b[..k]) + multiset{x} + multiset(b[k + 1..]);
      assert multiset(b') == multiset(b[..k]) + multiset(b[k + 1..]);
      assert multiset(a[..|a| - 1]) == multiset(a) - multiset{x};
      assert multiset(b') == multiset(b) - multiset{x};
      NonFileCountPermutation(a[..|a| - 1], b');
      NonFileCountSplit(b[..k], x, b[k + 1..]);
    }
  }

  lemma {:induction false} NonFileCountAppend(a: seq<Item>, b: seq<Item>)
    ensures NonFileCount(a + b) == NonFileCount(a) + NonFileCount(b)
    decreases |b|
  {
    if b == [] {
      assert a + b == a;
    } else {
      assert (a + b)[..|a + b| - 1] == a + b[..|b| - 1];
      NonFileCountAppend(a, b[..|b| - 1]);
    }
  }

  lemma NonFileCountSplit(a: seq<Item>, x: Item, b: seq<Item>)
    ensures NonFileCount(a + [x] + b) == NonFileCount(a + b) + NonFileCount([x])
  {
    NonFileCountAppend(a + [x], b);
    NonFileCountAppend(a, [x]);
    NonFileCountAppend(a, b);
  }

  /** No size text of `items` reads like a folder. */
  predicate NoDirText(items: seq<Item>)
  {
    forall i :: 0 <= i < |items| ==> !Contains(items[i].sizeText, "<DIR>")
  }

  lemma NoDirTextPermutation(a: seq<Item>, b: seq<Item>)
    requires multiset(a) == multiset(b) && NoDirText(a)
    ensures NoDirText(b)
  {
    forall i | 0 <= i < |b| ensures !Contains(b[i].sizeText, "<DIR>") {
      assert b[i] in multiset(a);
    }
  }

  /** The folder count of the status line is the number of entries of the
      directory that are not plain files, when no file's size text contains
      '<DIR>'. */
  lemma FolderCount(items: seq<Item>)
    requires NoDirText(items)
    ensures StatusCounts(Contents(items)).0 == NonFileCount(items)
  {
    var sorted := SortListing(items);
    NoDirTextPermutation(items, sorted);
    DirCountOfRows(Contents(items), sorted);
    NonFileCountPermutation(sorted, items);
  }

  // ------------------------------------------------------------ navigation and clipboard

  /** What a paste asks the file system to do. */
  datatype Transfer = CopyTo(source: string, dest: string) | MoveTo(source: string, dest: string)

  /** The clipboard operations `'copy'` and `'cut'`. */
  datatype Operation = CopyOperation | CutOperation

  /** The destination of a pasted item: its name in the current folder. */
  function Destination(current: Path, item: string): string
  {
    Render(current + [Basename(item)])
  }

  /** What pasting one clipboard item asks for. */
  function TransferOf(current: Path, item: string, operation: Operation): (t: Transfer)
    ensures t.source == item && t.dest == Destination(current, item)
    ensures t.CopyTo? <==> operation == CopyOperation
  {
    match operation
    case CopyOperation => CopyTo(item, Destination(current, item))
    case CutOperation => MoveTo(item, Destination(current, item))
  }

  /** The paste loop: each clipboard item in turn, copied or moved to the
      current folder. */
  function Transfers(current: Path, items: seq<string>, operation: Operation): (r: seq<Transfer>)
    ensures |r| == |items|
    ensures forall i :: 0 <= i < |items| ==> r[i] == TransferOf(current, items[i], operation)
  {
    if items == [] then [] else [TransferOf(current, items[0], operation)] + Transfers(current, items[1..], operation)
  }

  class Browser {
    var currentPath: Path
    var clipboard: seq<string>
    var clipboardOperation: Option<Operation>

    /** Only 'Copy' fills the clipboard, so it is either empty with no
        operation or one path with 'copy'. */
    ghost predicate Valid()
      reads this
    {
      (clipboard == [] && clipboardOperation == None)
      || (|clipboard| == 1 && clipboardOperation == Some(CopyOperation))
    }

    constructor (home: Path)
      ensures Valid()
      ensures currentPath == home && clipboard == [] && clipboardOperation == None
    {
      currentPath, clipboard, clipboardOperation := home, [], None;
    }

    /** 'Home' */
    method Home(home: Path)
      modifies this`currentPath
      ensures currentPath == home
    {
      currentPath := home;
    }

    /** 'Up': only when the parent differs, so the root stays where it is. */
    method Up() returns (moved: bool)
      modifies this`currentPath
      ensures moved <==> old(currentPath) != []
      ensures currentPath == Parent(old(currentPath))
    {
      moved := Parent(currentPath) != currentPath;
      if moved {
        currentPath := Parent(currentPath);
      }
    }

    /** 'Go': only to a folder that exists. */
    method GoTo(target: Path, isFolder: bool)
      modifies this`currentPath
      ensures currentPath == if isFolder then target else old(currentPath)
    {
      if isFolder {
        currentPath := target;
      }
    }

    /** A click on a row: a folder is entered, a file only previewed. */
    method Open(row: nat, rows: seq<Row>)
      modifies this`currentPath
      ensures row < |rows| && rows[row].isDir ==> currentPath == rows[row].path
      ensures !(row < |rows| && rows[row].isDir) ==> currentPath == old(currentPath)
    {
      if row < |rows| && rows[row].isDir {
        currentPath := rows[row].path;
      }
    }

    /** 'Copy': the selected row's full path, when the row exists. */
    method Copy(selected: Option<nat>, rows: seq<Row>)
      modifies this`clipboard, this`clipboardOperation
      ensures old(Valid()) ==> Valid()
      ensures selected.Some? && selected.value < |rows| ==>
        clipboard == [rows[selected.value].fullPath] && clipboardOperation == Some(CopyOperation)
      ensures !(selected.Some? && selected.value < |rows|) ==>
        clipboard == old(clipboard) && clipboardOperation == old(clipboardOperation)
    {
      if selected.Some? && selected.value < |rows| {
        clipboard := [rows[selected.value].fullPath];
        clipboardOperation := Some(CopyOperation);
      }
    }

    /** 'Paste': nothing without a clipboard and an operation; otherwise the
        transfers into the current folder. After a 'cut' that went through,
        the clipboard is emptied; after a 'copy' it is kept. */
    method Paste(failed: bool) returns (transfers: seq<Transfer>)
      modifies this`clipboard, this`clipboardOperation
      ensures old(Valid()) ==> Valid()
      ensures old(clipboard) == [] || old(clipboardOperation) == None ==>
        transfers == [] && clipboard == old(clipboard) && clipboardOperation == old(clipboardOperation)
      ensures old(clipboard) != [] && old(clipboardOperation).Some? ==>
        transfers == Transfers(currentPath, old(clipboard), old(clipboardOperation).value)
      ensures old(clipboardOperation) == Some(CutOperation) && old(clipboard) != [] && !failed ==>
        clipboard == [] && clipboardOperation == None
      ensures !(old(clipboardOperation) == Some(CutOperation) && old(clipboard) != [] && !failed) ==>
        clipboard == old(clipboard) && clipboardOperation == old(clipboardOperation)
    {
      transfers := [];
      if clipboard != [] && clipboardOperation.Some? {
        transfers := Transfers(currentPath, clipboard, clipboardOperation.value);
        if !failed && clipboardOperation == Some(CutOperation) {
          clipboard := [];
          clipboardOperation := None;
        }
      }
    }
  }

  /** Paste after Copy copies the selected entry into the current folder
      and keeps it on the clipboard. */
  method CopyThenPaste(home: Path, rows: seq<Row>, row: nat, failed: bool) returns (b: Browser, transfers: seq<Transfer>)
    requires row < |rows|
    ensures transfers == [CopyTo(rows[row].fullPath, Destination(home, rows[row].fullPath))]
    ensures b.clipboard == [rows[row].fullPath] && b.Valid()
  {
    b := new Browser(home);
    b.Copy(Some(row), rows);
    transfers := b.Paste(failed);
  }
}
