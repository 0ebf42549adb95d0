/** The download manager's bookkeeping: admission of a new download against
    the limit on concurrent downloads, the counter of running workers, the
    entry of each download and its status, the file name taken from the URL,
    the 'Clear Completed' filter and the counts under the table. The HTTP
    transfer, the threads, the clock and the history file are outside the
    model: the worker's outcome and the current time are inputs, and so is the
    path component of the URL (`urlparse` itself is not modelled). */
module Downloads {
  import opened Text

  const Starting: string := "Starting"
  const Downloading: string := "Downloading"
  const Completed: string := "Completed"
  const Cancelled: string := "Cancelled"

  /** The limit on concurrent downloads the manager starts with. */
  const DefaultMaxConcurrent: int := 3

  /** One entry of `downloads`; `total_size` is set by the first progress
      report and `end_time` when the transfer completes. */
  datatype Download = Download(url: string, filename: string, status: string, progress: int, speed: real,
                               startTime: nat, totalSize: Option<int>, endTime: Option<nat>)

  /** How a worker ended: the transfer finished, raised an exception with
      this message, or saw the 'Cancelled' status. */
  datatype Outcome = Finished | Failed(message: string) | Stopped

  /** `get_filename_from_url`, given the path part of the URL and the time:
      the last segment of a non-empty path, `download_<seconds>` otherwise. */
  function FilenameFromPath(path: string, now: nat): (name: string)
    ensures path != [] ==> '/' !in name && EndsWith(path, name)
    ensures path != [] ==> name == path || path[|path| - |name| - 1] == '/'
    ensures path == [] ==> name == "download_" + DecimalNat(now)
  {
    if path != [] then Basename(path) else "download_" + DecimalNat(now)
  }

  /** `os.path.join(save_path, filename)` for a file name without '/'. */
  function JoinPath(dir: string, name: string): (p: string)
    ensures EndsWith(p, name)
  {
    var p := if dir == [] || dir[|dir| - 1] == '/' then dir + name else dir + "/" + name;
    assert p[|p| - |name|..] == name;
    p
  }

  /** `f"dl_{int(time.time())}"`: the id says the second of the start. */
  function DownloadId(now: nat): (id: string)
    ensures StartsWith(id, "dl_") && id[3..] == DecimalNat(now)
  {
    var id := "dl_" + DecimalNat(now);
    assert id[..3] == "dl_";
    id
  }

  /** Downloads started in different seconds get different ids. */
  lemma DownloadIdsDistinct(now: nat, later: nat)
    requires now != later
    ensures DownloadId(now) != DownloadId(later)
  {
    ParseIntDecimalNat(now);
    ParseIntDecimalNat(later);
  }

  /** Whether an entry counts as active, or as completed, under the table. */
  predicate IsActive(d: Download)
  {
    d.status == Starting || d.status == Downloading
  }

  /** 'Clear Completed': the entries whose status is neither exactly
      'Completed' nor exactly 'Error'. */
  function ClearCompleted(downloads: map<string, Download>): (r: map<string, Download>)
    ensures forall k :: k in r <==> k in downloads && downloads[k].status != Completed && downloads[k].status != "Error"
    ensures forall k :: k in r ==> r[k] == downloads[k]
  {
    map k | k in downloads && downloads[k].status != Completed && downloads[k].status != "Error" :: downloads[k]
  }

  function ActiveKeys(downloads: map<string, Download>): set<string>
  {
    set k | k in downloads && IsActive(downloads[k])
  }

  function CompletedKeys(downloads: map<string, Download>): set<string>
  {
    set k | k in downloads && downloads[k].status == Completed
  }

  lemma NoActiveKeys(downloads: map<string, Download>)
    ensures ActiveKeys(downloads) == {} <==> forall k :: k in downloads ==> !IsActive(downloads[k])
  {
    if exists k :: k in downloads && IsActive(downloads[k]) {
      var k :| k in downloads && IsActive(downloads[k]);
      assert k in ActiveKeys(downloads);
    }
  }

  lemma NoCompletedKeys(downloads: map<string, Download>)
    ensures CompletedKeys(downloads) == {} <==> forall k :: k in downloads ==> downloads[k].status != Completed
  {
    if exists k :: k in downloads && downloads[k].status == Completed {
      var k :| k in downloads && downloads[k].status == Completed;
      assert k in CompletedKeys(downloads);
    }
  }

  /** The two counts under the table. */
  function ActiveCount(downloads: map<string, Download>): (n: nat)
    ensures n <= |downloads|
    ensures n == 0 <==> forall k :: k in downloads ==> !IsActive(downloads[k])
  {
    SubsetSize(ActiveKeys(downloads), downloads.Keys);
    NoActiveKeys(downloads);
    |ActiveKeys(downloads)|
  }

  function CompletedCount(downloads: map<string, Download>): (n: nat)
    ensures n <= |downloads|
    ensures n == 0 <==> forall k :: k in downloads ==> downloads[k].status != Completed
  {
    SubsetSize(CompletedKeys(downloads), downloads.Keys);
    NoCompletedKeys(downloads);
    |CompletedKeys(downloads)|
  }

  /** Clearing keeps every active download and every failed one. */
  lemma ClearKeepsActiveAndFailed(downloads: map<string, Download>, k: string)
    requires k in downloads && (IsActive(downloads[k]) || StartsWith(downloads[k].status, "Error: "))
    ensures k in ClearCompleted(downloads) && ClearCompleted(downloads)[k] == downloads[k]
  {
    if StartsWith(downloads[k].status, "Error: ") {
      var st := downloads[k].status;
      assert st[..7] == "Error: ";
      assert st != Completed by { assert st[0] == 'E' && Completed[0] == 'C'; }
      assert st != "Error" by { assert |st| >= 7; }
    }
  }

  /** After clearing, the active count is the same and the completed count is 0. */
  lemma ClearCounts(downloads: map<string, Download>)
    ensures ActiveCount(ClearCompleted(downloads)) == ActiveCount(downloads)
    ensures CompletedCount(ClearCompleted(downloads)) == 0
  {
    assert ActiveKeys(ClearCompleted(downloads)) == ActiveKeys(downloads);
    assert CompletedKeys(ClearCompleted(downloads)) == {};
  }

  /** The active and completed entries are disjoint, so the two counts
      never add up to more than the number of entries. */
  lemma CountsBounded(downloads: map<string, Download>)
    ensures ActiveCount(downloads) + CompletedCount(downloads) <= |downloads|
  {
    var both := ActiveKeys(downloads) + CompletedKeys(downloads);
    assert ActiveKeys(downloads) * CompletedKeys(downloads) == {};
    assert both <= downloads.Keys;
    assert |both| == ActiveCount(downloads) + CompletedCount(downloads);
    SubsetSize(both, downloads.Keys);
  }

  lemma {:induction false} SubsetSize(a: set<string>, b: set<string>)
    requires a <= b
    ensures |a| <= |b|
  {
    if a != {} {
      var x :| x in a;
      SubsetSize(a - {x}, b - {x});
    }
  }

  class DownloadManager {
    var downloads: map<string, Download>
    var activeDownloads: int
    var maxConcurrent: int
    /** The ids of the workers that have started and not yet ended; a
        download id occurs twice when two downloads started in the same
        second. */
    ghost var running: multiset<string>

    ghost predicate Valid()
      reads this
    {
      activeDownloads == |running|
    }

    constructor ()
      ensures Valid()
      ensures downloads == map[] && activeDownloads == 0 && maxConcurrent == DefaultMaxConcurrent && running == multiset{}
    {
      downloads, activeDownloads, maxConcurrent := map[], 0, DefaultMaxConcurrent;
      running := multiset{};
    }

    /** `start_download`: refused at the limit; otherwise a new 'Starting'
        entry under `dl_<seconds>` and one more running worker. */
    method StartDownload(url: string, path: string, savePath: string, now: nat) returns (id: Option<string>)
      requires Valid()
      modifies this`downloads, this`activeDownloads, this`running
      ensures Valid()
      ensures old(activeDownloads) >= maxConcurrent ==>
        id == None && downloads == old(downloads) && activeDownloads == old(activeDownloads) && running == old(running)
      ensures old(activeDownloads) < maxConcurrent ==>
        id == Some(DownloadId(now))
        && downloads == old(downloads)[DownloadId(now) :=
             Download(url, JoinPath(savePath, FilenameFromPath(path, now)), Starting, 0, 0.0, now, None, None)]
        && activeDownloads == old(activeDownloads) + 1
        && running == old(running) + multiset{DownloadId(now)}
    {
      if activeDownloads >= maxConcurrent {
        return None;
      }
      var downloadId := DownloadId(now);
      var entry := Download(url, JoinPath(savePath, FilenameFromPath(path, now)), Starting, 0, 0.0, now, None, None);
      downloads := downloads[downloadId := entry];
      activeDownloads := activeDownloads + 1;
      running := running + multiset{downloadId};
      id := Some(downloadId);
    }

    /** The worker begins: its entry becomes 'Downloading'. An entry that
        is gone (cleared meanwhile) raises, and the worker goes straight to
        its end; `found` tells which. */
    method BeginTransfer(id: string) returns (found: bool)
      requires Valid() && id in running
      modifies this`downloads
      ensures Valid()
      ensures found <==> id in old(downloads)
      ensures found ==> downloads == old(downloads)[id := old(downloads)[id].(status := Downloading)]
      ensures !found ==> downloads == old(downloads)
    {
      found := id in downloads;
      if found {
        downloads := downloads[id := downloads[id].(status := Downloading)];
      }
    }

    /** A '-UPDATE_PROGRESS-' event: only a known entry is updated, with
        its progress, its speed and the total size of the transfer. */
    method UpdateProgress(id: string, progress: int, speed: real, total: int)
      requires Valid()
      modifies this`downloads
      ensures Valid()
      ensures id in old(downloads) ==> downloads == old(downloads)[id :=
        old(downloads)[id].(progress := progress, speed := speed, totalSize := Some(total))]
      ensures id !in old(downloads) ==> downloads == old(downloads)
    {
      if id in downloads {
        downloads := downloads[id := downloads[id].(progress := progress, speed := speed, totalSize := Some(total))];
      }
    }

    /** The worker ends: 'Completed' and the end time after a full transfer,
        'Error: <message>' after an exception, the status left as it is after
        a cancellation.
        Writing the status of an entry that is gone raises from the handler
        itself and changes nothing. In every case the `finally` clause takes
        one off the counter. */
    method FinishTransfer(id: string, outcome: Outcome, now: nat)
      requires Valid() && id in running
      modifies this`downloads, this`activeDownloads, this`running
      ensures Valid()
      ensures activeDownloads == old(activeDownloads) - 1
      ensures running == old(running) - multiset{id}
      ensures id !in old(downloads) ==> downloads == old(downloads)
      ensures id in old(downloads) ==> downloads == match outcome
        case Finished => old(downloads)[id := old(downloads)[id].(status := Completed, endTime := Some(now))]
        case Failed(message) => old(downloads)[id := old(downloads)[id].(status := "Error: " + message)]
        case Stopped => old(downloads)
    {
      if id in downloads {
        match outcome {
          case Finished =>
            downloads := downloads[id := downloads[id].(status := Completed, endTime := Some(now))];
          case Failed(message) =>
            downloads := downloads[id := downloads[id].(status := "Error: " + message)];
          case Stopped =>
        }
      }
      activeDownloads := activeDownloads - 1;
      running := running - multiset{id};
    }

    /** The spin box: the new limit applies to later starts only. */
    method SetMaxConcurrent(n: int)
      modifies this`maxConcurrent
      ensures maxConcurrent == n
    {
      maxConcurrent := n;
    }

    /** The 'Clear Completed' button. */
    method ClearFinished()
      requires Valid()
      modifies this`downloads
      ensures Valid()
      ensures downloads == ClearCompleted(old(downloads))
    {
      downloads := ClearCompleted(downloads);
    }
  }

  /** Two downloads started in the same second share one entry while two
      workers run. */
  method SameSecondStarts(url1: string, url2: string, path: string, savePath: string, now: nat)
    returns (m: DownloadManager)
    ensures m.activeDownloads == 2 && |m.downloads| == 1
    ensures ActiveCount(m.downloads) == 1
  {
    m := new DownloadManager();
    var first := m.StartDownload(url1, path, savePath, now);
    var second := m.StartDownload(url2, path, savePath, now);
    assert m.downloads.Keys == {DownloadId(now)};
    assert ActiveKeys(m.downloads) == {DownloadId(now)};
  }
}
