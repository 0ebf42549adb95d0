/** The retention rule of the accounting application's automatic backups:
    of the files `backup_*.db` in the backup directory, the `keep` newest by
    creation time are kept and the rest are deleted. Listing the directory,
    reading creation times and removing files are outside the model: the
    listing comes in as data, and the result is the list of paths to remove. */
module Backups {
  import opened Text

  const BackupDir: string := "backups"

  /** The number of backups the automatic backup keeps. */
  const AutoKeep: nat := 10

  /** One name of `os.listdir` with the creation time of that file. */
  datatype DirEntry = DirEntry(name: string, ctime: real)

  /** A backup file: its path and creation time. */
  datatype Backup = Backup(path: string, ctime: real)

  predicate IsBackupName(name: string)
  {
    StartsWith(name, "backup_") && EndsWith(name, ".db")
  }

  /** `os.path.join(self.backup_dir, filename)` */
  function BackupPath(name: string): (p: string)
    ensures StartsWith(p, BackupDir + "/")
  {
    assert (BackupDir + "/" + name)[..|BackupDir + "/"|] == BackupDir + "/";
    BackupDir + "/" + name
  }

  /** The backup files of the listing, in listing order. */
  function BackupsOf(entries: seq<DirEntry>): (r: seq<Backup>)
    ensures |r| <= |entries|
  {
    if entries == [] then []
    else
      var rest := BackupsOf(entries[..|entries| - 1]);
      var e := entries[|entries| - 1];
      if IsBackupName(e.name) then rest + [Backup(BackupPath(e.name), e.ctime)] else rest
  }

  predicate NewestFirst(s: seq<Backup>)
  {
    forall i, j :: 0 <= i < j < |s| ==> s[i].ctime >= s[j].ctime
  }

  /** Insert `x` before the first backup that is not newer than it, so that
      backups with equal times keep their listing order. */
  function Insert(x: Backup, s: seq<Backup>): (r: seq<Backup>)
    ensures |r| == |s| + 1
    ensures multiset(r) == multiset(s) + multiset{x}
  {
    if s == [] || s[0].ctime <= x.ctime then [x] + s
    else
      assert s == [s[0]] + s[1..];
      [s[0]] + Insert(x, s[1..])
  }

  /** `backup_files.sort(key=lambda x: x[1], reverse=True)`: a stable sort,
      newest first. */
  function SortNewestFirst(s: seq<Backup>): (r: seq<Backup>)
    ensures |r| == |s|
    ensures multiset(r) == multiset(s)
  {
    if s == [] then []
    else
      assert s == [s[0]] + s[1..];
      Insert(s[0], SortNewestFirst(s[1..]))
  }

  /** The paths of the given backups, in order. */
  function Paths(s: seq<Backup>): (r: seq<string>)
    ensures |r| == |s| && forall i :: 0 <= i < |s| ==> r[i] == s[i].path
  {
    if s == [] then [] else [s[0].path] + Paths(s[1..])
  }

  /** The backups that retention removes: those after the `keep` newest. */
  function Doomed(entries: seq<DirEntry>, keep: nat): seq<Backup>
  {
    var sorted := SortNewestFirst(BackupsOf(entries));
    if keep < |sorted| then sorted[keep..] else []
  }

  /** The `keep` newest backups. */
  function Kept(entries: seq<DirEntry>, keep: nat): seq<Backup>
  {
    var sorted := SortNewestFirst(BackupsOf(entries));
    if keep < |sorted| then sorted[..keep] else sorted
  }

  /** `cleanup_old_backups(keep)`: collect the backup files, sort them newest
      first, and return the paths of those after the first `keep`. */
  method CleanupOldBackups(entries: seq<DirEntry>, keep: nat) returns (doomed: seq<string>)
    ensures doomed == Paths(Doomed(entries, keep))
  {
    var found: seq<Backup> := [];
    for i := 0 to |entries|
      invariant found == BackupsOf(entries[..i])
    {
      assert entries[..i + 1][..i] == entries[..i];
      var name := entries[i].name;
      if StartsWith(name, "backup_") && EndsWith(name, ".db") {
        found := found + [Backup(BackupPath(name), entries[i].ctime)];
      }
    }
    assert entries[..|entries|] == entries;
    var sorted := SortNewestFirst(found);
    if keep < |sorted| {
      doomed := Paths(sorted[keep..]);
    } else {
      doomed := [];
    }
  }

  // ------------------------------------------------------------ properties

  lemma {:induction false} InsertSorted(x: Backup, s: seq<Backup>)
    requires NewestFirst(s)
    ensures NewestFirst(Insert(x, s))
  {
    if s != [] && s[0].ctime > x.ctime {
      InsertSorted(x, s[1..]);
      var r := Insert(x, s);
      var t := Insert(x, s[1..]);
      assert r == [s[0]] + t;
      forall k | 0 <= k < |t| ensures s[0].ctime >= t[k].ctime {
        assert t[k] in multiset(t);
        assert t[k] in multiset(s[1..]) + multiset{x};
        if t[k] != x {
          assert t[k] in s[1..];
          var m :| 0 <= m < |s[1..]| && s[1..][m] == t[k];
          assert s[m + 1] == t[k];
        }
      }
    }
  }

  lemma {:induction false} SortIsSorted(s: seq<Backup>)
    ensures NewestFirst(SortNewestFirst(s))
  {
    if s != [] {
      SortIsSorted(s[1..]);
      InsertSorted(s[0], SortNewestFirst(s[1..]));
    }
  }

  /** Kept and deleted backups together are the backup files of the listing,
      each exactly once; no other file is touched. */
  lemma KeptAndDoomedPartition(entries: seq<DirEntry>, keep: nat)
    ensures multiset(Kept(entries, keep)) + multiset(Doomed(entries, keep)) == multiset(BackupsOf(entries))
    ensures |Kept(entries, keep)| == if keep < |BackupsOf(entries)| then keep else |BackupsOf(entries)|
  {
    var sorted := SortNewestFirst(BackupsOf(entries));
    if keep < |sorted| {
      assert sorted == sorted[..keep] + sorted[keep..];
    }
  }

  /** `b` is the backup file for the listed name `e`. */
  predicate ListedAs(e: DirEntry, b: Backup)
  {
    IsBackupName(e.name) && b == Backup(BackupPath(e.name), e.ctime)
  }

  lemma {:induction false} BackupsOfNames(entries: seq<DirEntry>, b: Backup)
    requires b in BackupsOf(entries)
    ensures exists i :: 0 <= i < |entries| && ListedAs(entries[i], b)
  {
    var rest := BackupsOf(entries[..|entries| - 1]);
    var e := entries[|entries| - 1];
    if b in rest {
      BackupsOfNames(entries[..|entries| - 1], b);
      var i :| 0 <= i < |entries| - 1 && ListedAs(entries[..|entries| - 1][i], b);
      assert entries[..|entries| - 1][i] == entries[i];
    } else {
      assert ListedAs(entries[|entries| - 1], b);
    }
  }

  /** Every `backup_*.db` name of the listing gives a backup. */
  lemma {:induction false} BackupsOfComplete(entries: seq<DirEntry>, i: nat)
    requires i < |entries| && IsBackupName(entries[i].name)
    ensures Backup(BackupPath(entries[i].name), entries[i].ctime) in BackupsOf(entries)
  {
    var init := entries[..|entries| - 1];
    if i < |entries| - 1 {
      assert init[i] == entries[i];
      BackupsOfComplete(init, i);
    }
  }

  /** Every backup of the listing is either kept or deleted. */
  lemma ListedBackupKeptOrDoomed(entries: seq<DirEntry>, keep: nat, i: nat)
    requires i < |entries| && IsBackupName(entries[i].name)
    ensures var b := Backup(BackupPath(entries[i].name), entries[i].ctime);
      b in Kept(entries, keep) || b in Doomed(entries, keep)
  {
    var b := Backup(BackupPath(entries[i].name), entries[i].ctime);
    BackupsOfComplete(entries, i);
    KeptAndDoomedPartition(entries, keep);
    assert b in multiset(BackupsOf(entries));
    assert b in multiset(Kept(entries, keep)) + multiset(Doomed(entries, keep));
  }

  /** Every deleted path is the path of a `backup_*.db` file of the listing,
      with that file's creation time. */
  lemma DoomedAreBackups(entries: seq<DirEntry>, keep: nat, b: Backup)
    requires b in Doomed(entries, keep)
    ensures exists i :: 0 <= i < |entries| && ListedAs(entries[i], b)
  {
    KeptAndDoomedPartition(entries, keep);
    assert b in multiset(Doomed(entries, keep));
    assert b in multiset(BackupsOf(entries));
    BackupsOfNames(entries, b);
  }

  /** No deleted backup is newer than a kept one. */
  lemma DoomedAreOldest(entries: seq<DirEntry>, keep: nat, k: Backup, d: Backup)
    requires k in Kept(entries, keep) && d in Doomed(entries, keep)
    ensures d.ctime <= k.ctime
  {
    var sorted := SortNewestFirst(BackupsOf(entries));
    SortIsSorted(BackupsOf(entries));
    var i :| 0 <= i < |Kept(entries, keep)| && Kept(entries, keep)[i] == k;
    var j :| 0 <= j < |Doomed(entries, keep)| && Doomed(entries, keep)[j] == d;
    assert sorted[i] == k && sorted[keep + j] == d;
  }

  /** With at most `keep` backups nothing is deleted. */
  lemma NothingDoomedUnderLimit(entries: seq<DirEntry>, keep: nat)
    requires |BackupsOf(entries)| <= keep
    ensures Doomed(entries, keep) == []
  {
  }
}
