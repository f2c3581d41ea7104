/** The file organizer: its two counters and the scan of the watched directories for the
    regular files directly inside them. The file system is a value handed in. */
module Organizer {
  import opened Paths

  /** One entry of a directory listing: its name and whether `is_file` holds for it. */
  datatype Entry = Entry(name: string, isFile: bool)

  /** What the scan can observe: which paths exist, and the listing `iterdir` yields, in its
      order, for each directory it can read. A path that exists without a listing is one
      `iterdir` fails on (not a directory, or not readable). */
  datatype FileSystem = FileSystem(existing: set<Path>, listings: map<Path, seq<Entry>>)

  /** A listing names each entry once, as `iterdir` does. */
  predicate UniqueNames(entries: seq<Entry>)
  {
    forall i, j :: 0 <= i < j < |entries| ==> entries[i].name != entries[j].name
  }

  /** The outcome of a scan: the files found and the missing directories that were warned
      about, or the directory whose listing raised, which ends the scan. */
  datatype ScanResult =
    | Scanned(files: seq<Path>, missing: seq<Path>)
    | ScanFailed(dir: Path)

  /** The directories `scan_directories` watches: `~/Downloads`. */
  function WatchDirectories(home: Path): (dirs: seq<Path>)
    ensures |dirs| == 1 && Name(dirs[0]) == "Downloads" && Parent(dirs[0]) == home
  {
    ChildNameParent(home, "Downloads");
    [Child(home, "Downloads")]
  }

  /** The paths of the regular-file entries of `dir`, in listing order. */
  function FilesIn(dir: Path, entries: seq<Entry>): (files: seq<Path>)
    ensures |files| <= |entries|
    ensures forall k :: 0 <= k < |files| ==> Parent(files[k]) == dir
  {
    if entries == [] then []
    else
      var last := entries[|entries| - 1];
      ChildNameParent(dir, last.name);
      FilesIn(dir, entries[..|entries| - 1]) + (if last.isFile then [Child(dir, last.name)] else [])
  }

  /** What scanning `dirs`, in order, yields. */
  function Scan(fs: FileSystem, dirs: seq<Path>): (r: ScanResult)
    ensures r.ScanFailed? ==> r.dir in dirs && r.dir in fs.existing && r.dir !in fs.listings
    ensures r.Scanned? ==> forall k :: 0 <= k < |r.missing| ==> r.missing[k] in dirs && r.missing[k] !in fs.existing
  {
    if dirs == [] then Scanned([], [])
    else
      var d := dirs[|dirs| - 1];
      match Scan(fs, dirs[..|dirs| - 1])
      case ScanFailed(x) => ScanFailed(x)
      case Scanned(files, missing) =>
        if d !in fs.existing then Scanned(files, missing + [d])
        else if d in fs.listings then Scanned(files + FilesIn(d, fs.listings[d]), missing)
        else ScanFailed(d)
  }

  /** Scanning `a` and then `b`: the files and warnings of both, in that order, unless one
      of them fails, in which case the first failure stands. */
  function Combine(first: ScanResult, second: ScanResult): ScanResult
  {
    match first
    case ScanFailed(_) => first
    case Scanned(files, missing) =>
      match second
      case ScanFailed(_) => second
      case Scanned(files', missing') => Scanned(files + files', missing + missing')
  }

  /** `p` is the path of a regular-file entry of the listing `entries` of `dir`. */
  predicate IsFileEntry(dir: Path, entries: seq<Entry>, p: Path)
  {
    exists m :: 0 <= m < |entries| && entries[m].isFile && p == Child(dir, entries[m].name)
  }

  ghost predicate NoDuplicates<T>(s: seq<T>)
  {
    forall i, j :: 0 <= i < j < |s| ==> s[i] != s[j]
  }

  /** The files of a listing are those of its two halves, in order. */
  lemma {:induction false} FilesInAppend(dir: Path, a: seq<Entry>, b: seq<Entry>)
    ensures FilesIn(dir, a + b) == FilesIn(dir, a) + FilesIn(dir, b)
  {
    if b != [] {
      var b' := b[..|b| - 1];
      assert (a + b)[..|a + b| - 1] == a + b';
      FilesInAppend(dir, a, b');
    } else {
      assert a + b == a;
    }
  }

  /** The files of a listing are exactly the paths of its regular-file entries; the scan
      does not recurse and does not filter names, so hidden entries are kept. */
  lemma {:induction false} FilesInMember(dir: Path, entries: seq<Entry>, p: Path)
    ensures p in FilesIn(dir, entries) <==> IsFileEntry(dir, entries, p)
  {
    if entries != [] {
      var n := |entries|;
      var init := entries[..n - 1];
      FilesInMember(dir, init, p);
      if IsFileEntry(dir, init, p) {
        var m :| 0 <= m < |init| && init[m].isFile && p == Child(dir, init[m].name);
        assert entries[m] == init[m];
      }
      if IsFileEntry(dir, entries, p) {
        var m :| 0 <= m < n && entries[m].isFile && p == Child(dir, entries[m].name);
        if m < n - 1 {
          assert init[m] == entries[m];
        }
      }
    }
  }

  /** A listing that names each entry once yields each file once. */
  lemma {:induction false} FilesInNoDuplicates(dir: Path, entries: seq<Entry>)
    requires UniqueNames(entries)
    ensures NoDuplicates(FilesIn(dir, entries))
  {
    if entries != [] {
      var n := |entries|;
      var init := entries[..n - 1];
      var last := entries[n - 1];
      FilesInNoDuplicates(dir, init);
      if last.isFile {
        var p := Child(dir, last.name);
        forall m | 0 <= m < |init| && init[m].isFile ensures p != Child(dir, init[m].name) {
          assert entries[m] == init[m];
          ChildInjective(dir, last.name, dir, init[m].name);
        }
        FilesInMember(dir, init, p);
        NoDuplicatesAppend(FilesIn(dir, init), [p]);
      }
    }
  }

  /** Two duplicate-free sequences with nothing in common concatenate to one. */
  lemma NoDuplicatesAppend<T>(a: seq<T>, b: seq<T>)
    requires NoDuplicates(a) && NoDuplicates(b)
    requires forall x :: x in a ==> x !in b
    ensures NoDuplicates(a + b)
  {
    forall i, j | 0 <= i < j < |a + b| ensures (a + b)[i] != (a + b)[j] {
      if i < |a| && j >= |a| {
        assert (a + b)[i] in a && (a + b)[j] in b;
      }
    }
  }

  /** Scanning a list of directories is scanning its two halves, in watch-list order. */
  lemma {:induction false} ScanAppend(fs: FileSystem, a: seq<Path>, b: seq<Path>)
    ensures Scan(fs, a + b) == Combine(Scan(fs, a), Scan(fs, b))
  {
    if b == [] {
      assert a + b == a;
      if Scan(fs, a).Scanned? {
        assert Scan(fs, a).files + [] == Scan(fs, a).files;
        assert Scan(fs, a).missing + [] == Scan(fs, a).missing;
      }
    } else {
      var b' := b[..|b| - 1];
      assert (a + b)[..|a + b| - 1] == a + b';
      assert (a + b)[|a + b| - 1] == b[|b| - 1];
      ScanAppend(fs, a, b');
      if Scan(fs, a).Scanned? && Scan(fs, b').Scanned? {
        var f1, m1 := Scan(fs, a).files, Scan(fs, a).missing;
        var f2, m2 := Scan(fs, b').files, Scan(fs, b').missing;
        var d := b[|b| - 1];
        if d !in fs.existing {
          assert m1 + m2 + [d] == m1 + (m2 + [d]);
        } else if d in fs.listings {
          assert f1 + f2 + FilesIn(d, fs.listings[d]) == f1 + (f2 + FilesIn(d, fs.listings[d]));
        }
      }
    }
  }

  /** A directory that does not exist adds a warning and nothing else; the scan goes on. */
  lemma MissingDirectorySkipped(fs: FileSystem, a: seq<Path>, d: Path, b: seq<Path>)
    requires d !in fs.existing
    ensures Scan(fs, a + [d] + b).Scanned? <==> Scan(fs, a + b).Scanned?
    ensures Scan(fs, a + [d] + b).Scanned? ==>
              && Scan(fs, a).Scanned? && Scan(fs, b).Scanned?
              && Scan(fs, a + [d] + b).files == Scan(fs, a + b).files
              && Scan(fs, a + [d] + b).missing == Scan(fs, a).missing + [d] + Scan(fs, b).missing
  {
    ScanAppend(fs, a + [d], b);
    ScanAppend(fs, a, [d]);
    ScanAppend(fs, a, b);
    assert [d][..0] == [];
    if Scan(fs, a).Scanned? {
      assert Scan(fs, a).files + [] == Scan(fs, a).files;
    }
  }

  /** A scan fails exactly when some watched directory exists but cannot be listed, and
      then it reports the first such directory. */
  lemma {:induction false} ScanFailure(fs: FileSystem, dirs: seq<Path>)
    ensures Scan(fs, dirs).ScanFailed? <==>
              exists k :: 0 <= k < |dirs| && dirs[k] in fs.existing && dirs[k] !in fs.listings
    ensures Scan(fs, dirs).ScanFailed? ==>
              exists k :: && 0 <= k < |dirs| && dirs[k] == Scan(fs, dirs).dir
                          && dirs[k] in fs.existing && dirs[k] !in fs.listings
                          && forall j :: 0 <= j < k ==> dirs[j] !in fs.existing || dirs[j] in fs.listings
  {
    if dirs != [] {
      var n := |dirs|;
      var init := dirs[..n - 1];
      ScanFailure(fs, init);
      forall k | 0 <= k < n - 1 ensures init[k] == dirs[k] { }
      if Scan(fs, init).ScanFailed? {
        var k :| && 0 <= k < |init| && init[k] == Scan(fs, init).dir
                 && init[k] in fs.existing && init[k] !in fs.listings
                 && forall j :: 0 <= j < k ==> init[j] !in fs.existing || init[j] in fs.listings;
        assert dirs[k] == init[k];
      } else if dirs[n - 1] in fs.existing && dirs[n - 1] !in fs.listings {
        assert forall j :: 0 <= j < n - 1 ==> dirs[j] !in fs.existing || dirs[j] in fs.listings;
      } else {
        forall k | 0 <= k < n ensures dirs[k] !in fs.existing || dirs[k] in fs.listings {
          if k < n - 1 { assert dirs[k] == init[k]; }
        }
      }
    }
  }

  /** Every file the scan returns is a regular-file entry directly inside a watched directory
      that exists, and every such entry is returned. */
  lemma {:induction false} ScanFilesMember(fs: FileSystem, dirs: seq<Path>, p: Path)
    requires Scan(fs, dirs).Scanned?
    ensures p in Scan(fs, dirs).files <==>
              exists k :: && 0 <= k < |dirs| && dirs[k] in fs.existing && dirs[k] in fs.listings
                          && IsFileEntry(dirs[k], fs.listings[dirs[k]], p)
  {
    if dirs != [] {
      var n := |dirs|;
      var init := dirs[..n - 1];
      var d := dirs[n - 1];
      ScanFilesMember(fs, init, p);
      forall k | 0 <= k < n - 1 ensures init[k] == dirs[k] { }
      if d in fs.existing {
        FilesInMember(d, fs.listings[d], p);
      }
      if exists k :: && 0 <= k < n && dirs[k] in fs.existing && dirs[k] in fs.listings
                     && IsFileEntry(dirs[k], fs.listings[dirs[k]], p) {
        var k :| && 0 <= k < n && dirs[k] in fs.existing && dirs[k] in fs.listings
                 && IsFileEntry(dirs[k], fs.listings[dirs[k]], p);
        if k < n - 1 {
          assert init[k] == dirs[k];
        }
      }
    }
  }

  /** The warnings name exactly the watched directories that do not exist. */
  lemma {:induction false} ScanMissingMember(fs: FileSystem, dirs: seq<Path>, d: Path)
    requires Scan(fs, dirs).Scanned?
    ensures d in Scan(fs, dirs).missing <==> d in dirs && d !in fs.existing
  {
    if dirs != [] {
      var init := dirs[..|dirs| - 1];
      ScanMissingMember(fs, init, d);
      assert dirs == init + [dirs[|dirs| - 1]];
    }
  }

  /** With distinct watched directories and listings that name each entry once, no file is
      returned twice; with the membership above, each is returned exactly once. */
  lemma {:induction false} ScanNoDuplicates(fs: FileSystem, dirs: seq<Path>)
    requires Scan(fs, dirs).Scanned?
    requires NoDuplicates(dirs)
    requires forall d :: d in fs.listings ==> UniqueNames(fs.listings[d])
    ensures NoDuplicates(Scan(fs, dirs).files)
  {
    if dirs != [] {
      var n := |dirs|;
      var init := dirs[..n - 1];
      var d := dirs[n - 1];
      ScanNoDuplicates(fs, init);
      if d in fs.existing {
        var before := Scan(fs, init).files;
        var added := FilesIn(d, fs.listings[d]);
        FilesInNoDuplicates(d, fs.listings[d]);
        forall p | p in before ensures p !in added {
          ScanFilesMember(fs, init, p);
          var k :| && 0 <= k < |init| && init[k] in fs.existing && init[k] in fs.listings
                   && IsFileEntry(init[k], fs.listings[init[k]], p);
          var m :| 0 <= m < |fs.listings[init[k]]| && fs.listings[init[k]][m].isFile
                   && p == Child(init[k], fs.listings[init[k]][m].name);
          assert init[k] != d by {
            assert dirs[k] == init[k];
          }
          forall m' | 0 <= m' < |fs.listings[d]| && fs.listings[d][m'].isFile
            ensures p != Child(d, fs.listings[d][m'].name)
          {
            ChildInjective(init[k], fs.listings[init[k]][m].name, d, fs.listings[d][m'].name);
          }
          FilesInMember(d, fs.listings[d], p);
        }
        NoDuplicatesAppend(before, added);
      }
    }
  }

  /** The one watched directory, `~/Downloads`: a warning and nothing else when it does not
      exist, otherwise its regular files in listing order, each once. */
  lemma ScanOfDownloads(fs: FileSystem, home: Path)
    ensures var d := Child(home, "Downloads");
            Scan(fs, WatchDirectories(home)) ==
              if d !in fs.existing then Scanned([], [d])
              else if d in fs.listings then Scanned(FilesIn(d, fs.listings[d]), [])
              else ScanFailed(d)
    ensures var d := Child(home, "Downloads");
            d in fs.existing && d in fs.listings && UniqueNames(fs.listings[d]) ==>
              NoDuplicates(Scan(fs, WatchDirectories(home)).files)
  {
    var d := Child(home, "Downloads");
    assert WatchDirectories(home)[..0] == [];
    if d in fs.listings && UniqueNames(fs.listings[d]) {
      FilesInNoDuplicates(d, fs.listings[d]);
    }
  }

  class FileOrganizer {
    var organizedCount: int
    var errorCount: int

    constructor ()
      ensures organizedCount == 0 && errorCount == 0
    {
      organizedCount := 0;
      errorCount := 0;
    }

    /** `scan_directories`: for each watched directory that exists, every entry of its
        listing that is a regular file, in listing order; a missing directory is reported
        and skipped. It changes nothing, the counters included. */
    method ScanDirectories(fs: FileSystem, home: Path) returns (result: ScanResult)
      ensures result == Scan(fs, WatchDirectories(home))
    {
      var downloads := JoinName(home, "Downloads");
      var watchDirs := [downloads];
      var files: seq<Path> := [];
      var missing: seq<Path> := [];
      var i := 0;
      while i < |watchDirs|
        invariant 0 <= i <= |watchDirs|
        invariant Scan(fs, watchDirs[..i]) == Scanned(files, missing)
      {
        var d := watchDirs[i];
        assert watchDirs[..i + 1][..i] == watchDirs[..i];
        if d in fs.existing {
          if d !in fs.listings {
            return ScanFailed(d);
          }
          var entries := fs.listings[d];
          ghost var before := files;
          var j := 0;
          while j < |entries|
            invariant 0 <= j <= |entries|
            invariant files == before + FilesIn(d, entries[..j])
          {
            assert entries[..j + 1][..j] == entries[..j];
            if entries[j].isFile {
              files := files + [Child(d, entries[j].name)];
            }
            j := j + 1;
          }
          assert entries[..j] == entries;
        } else {
          missing := missing + [d];
        }
        i := i + 1;
      }
      assert watchDirs[..i] == watchDirs;
      return Scanned(files, missing);
    }
  }
}
