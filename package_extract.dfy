/**
 * The archive-name rules of `package-extract.py`: which file names are tar
 * archives, which package an archive belongs to, the archive list taken
 * from a directory listing, and the sequence of directory creations and
 * extractions the extractor performs.
 */
module PackageExtract {
  import opened PyStr
  import opened PosixPath
  import opened Sorting

  // ---------------------------------------------------------------------
  // is_archive
  // ---------------------------------------------------------------------

  /**
   * `is_archive`: the dot-separated components of the name number at least
   * two, and the last or the second-to-last of them is `tar`.
   */
  predicate IsArchive(filename: string)
  {
    var exts := Split(filename, '.');
    |exts| > 1 && "tar" in exts && (exts[|exts| - 1] == "tar" || exts[|exts| - 2] == "tar")
  }

  /** The `"tar" in exts` test adds nothing to the test of the last two components. */
  lemma IsArchiveLastTwo(filename: string)
    ensures var exts := Split(filename, '.');
      IsArchive(filename) <==> |exts| > 1 && (exts[|exts| - 1] == "tar" || exts[|exts| - 2] == "tar")
  {
  }

  /** A name without a dot, `tar` itself included, is never an archive. */
  lemma NoDotNoArchive(filename: string)
    requires '.' !in filename
    ensures !IsArchive(filename)
  {
    SplitWithoutSep(filename, '.');
  }

  /** The components of `stem.tar` are those of `stem` followed by `tar`. */
  lemma TarLast(stem: string)
    ensures Split(stem + ".tar", '.') == Split(stem, '.') + ["tar"]
  {
    SplitWithoutSep("tar", '.');
    assert stem + ".tar" == stem + ['.'] + "tar";
    SplitAround(stem, '.', "tar");
  }

  /** The components of `stem.tar.sfx` are those of `stem` followed by `tar` and `sfx`. */
  lemma TarSecondLast(stem: string, sfx: string)
    requires '.' !in sfx
    ensures Split(stem + ".tar." + sfx, '.') == Split(stem, '.') + ["tar", sfx]
  {
    SplitWithoutSep("tar", '.');
    SplitWithoutSep(sfx, '.');
    assert "tar." + sfx == "tar" + ['.'] + sfx;
    SplitAround("tar", '.', sfx);
    assert stem + ".tar." + sfx == stem + ['.'] + ("tar" + ['.'] + sfx);
    SplitAround(stem, '.', "tar" + ['.'] + sfx);
  }

  /**
   * Any compression suffix is accepted after `.tar`, and so is none:
   * `stem.tar` and `stem.tar.sfx` are archives for every stem and every
   * dot-free suffix.
   */
  lemma TarWithAnySuffix(stem: string, sfx: string)
    requires '.' !in sfx
    ensures IsArchive(stem + ".tar")
    ensures IsArchive(stem + ".tar." + sfx)
  {
    TarLast(stem);
    TarSecondLast(stem, sfx);
  }

  /**
   * When neither of the last two components is `tar`, the name is rejected,
   * whatever comes before them: `a.tar.gz.sig` is not an archive.
   */
  lemma TarTooEarly(stem: string, ext1: string, ext2: string)
    requires '.' !in ext1 && '.' !in ext2
    requires ext1 != "tar" && ext2 != "tar"
    ensures !IsArchive(stem + "." + ext1 + "." + ext2)
  {
    SplitWithoutSep(ext1, '.');
    SplitWithoutSep(ext2, '.');
    SplitAround(ext1, '.', ext2);
    assert ext1 + "." + ext2 == ext1 + ['.'] + ext2;
    assert stem + "." + ext1 + "." + ext2 == stem + ['.'] + (ext1 + ['.'] + ext2);
    SplitAround(stem, '.', ext1 + ['.'] + ext2);
    var exts := Split(stem + "." + ext1 + "." + ext2, '.');
    assert exts == Split(stem, '.') + [ext1, ext2];
  }

  /** A name of two dot-separated components, neither of them `tar`, is not an archive. */
  lemma TwoComponentsNoTar(base: string, ext: string)
    requires '.' !in base && '.' !in ext
    requires base != "tar" && ext != "tar"
    ensures !IsArchive(base + "." + ext)
  {
    SplitWithoutSep(base, '.');
    SplitWithoutSep(ext, '.');
    assert base + "." + ext == base + ['.'] + ext;
    SplitAround(base, '.', ext);
  }

  lemma CompressedTarballsAreArchives()
    ensures IsArchive("foo_1.0.orig.tar.gz")
    ensures IsArchive("foo_1.0-1.debian.tar.xz")
    ensures IsArchive("foo_1.0.tar")
  {
    TarWithAnySuffix("foo_1.0.orig", "gz");
    assert "foo_1.0.orig" + ".tar." + "gz" == "foo_1.0.orig.tar.gz";
    TarWithAnySuffix("foo_1.0-1.debian", "xz");
    assert "foo_1.0-1.debian" + ".tar." + "xz" == "foo_1.0-1.debian.tar.xz";
    TarWithAnySuffix("foo_1.0", "");
    assert "foo_1.0" + ".tar" == "foo_1.0.tar";
  }

  lemma OtherFilesAreNotArchives()
    ensures !IsArchive("tar")
    ensures !IsArchive("foo_1.0.dsc")
    ensures !IsArchive("a.tar.gz.sig")
  {
    NoDotNoArchive("tar");
    TarTooEarly("foo_1", "0", "dsc");
    assert "foo_1" + "." + "0" + "." + "dsc" == "foo_1.0.dsc";
    TarTooEarly("a.tar", "gz", "sig");
    assert "a.tar" + "." + "gz" + "." + "sig" == "a.tar.gz.sig";
  }

  // ---------------------------------------------------------------------
  // The package a file name belongs to
  // ---------------------------------------------------------------------

  /** `filename.split("_")[0]`: the part of the name before its first `_`. */
  function PackageName(filename: string): (package: string)
    ensures '_' !in package
  {
    Split(filename, '_')[0]
  }

  /**
   * The package name is the longest prefix of the name without `_`: the
   * whole name, or a prefix followed by the first `_`.
   */
  lemma PackageNameIsPrefix(filename: string)
    ensures var package := PackageName(filename);
      && |package| <= |filename| && filename[..|package|] == package
      && (|package| == |filename| || filename[|package|] == '_')
  {
    SplitHead(filename, '_');
  }

  /** A file name without `_` is its own package name. */
  lemma PackageNameWithoutUnderscore(filename: string)
    requires '_' !in filename
    ensures PackageName(filename) == filename
  {
    SplitWithoutSep(filename, '_');
  }

  /** The package name stops at the first `_`, whatever follows it. */
  lemma PackageNameBeforeUnderscore(package: string, rest: string)
    requires '_' !in package
    ensures PackageName(package + "_" + rest) == package
  {
    SplitWithoutSep(package, '_');
    assert package + "_" + rest == package + ['_'] + rest;
    SplitAround(package, '_', rest);
  }

  lemma PackageNameExamples()
    ensures PackageName("foo_1.0.orig.tar.gz") == "foo"
    ensures PackageName("linux-signed_5.19.0-21.21.tar.xz") == "linux-signed"
  {
    assert "foo" + "_" + "1.0.orig.tar.gz" == "foo_1.0.orig.tar.gz";
    PackageNameBeforeUnderscore("foo", "1.0.orig.tar.gz");
    assert "linux-signed" + "_" + "5.19.0-21.21.tar.xz" == "linux-signed_5.19.0-21.21.tar.xz";
    PackageNameBeforeUnderscore("linux-signed", "5.19.0-21.21.tar.xz");
  }

  // ---------------------------------------------------------------------
  // get_archives
  // ---------------------------------------------------------------------

  /** One entry of the directory listing: its name and whether it is a regular file. */
  datatype DirEntry = DirEntry(name: string, isFile: bool)

  /** `entry.is_file() and is_archive(entry.name)`: the entry's path is collected. */
  predicate Qualifies(entry: DirEntry)
  {
    entry.isFile && IsArchive(entry.name)
  }

  /** The paths the scan appends, in listing order, before sorting. */
  function Candidates(archiveDir: string, entries: seq<DirEntry>): seq<string>
    decreases |entries|
  {
    if entries == [] then []
    else
      var entry := entries[|entries| - 1];
      Candidates(archiveDir, entries[..|entries| - 1])
        + (if Qualifies(entry) then [Join(archiveDir, entry.name)] else [])
  }

  /** The entry `entry` of the listing contributes the path `path`. */
  predicate Yields(archiveDir: string, entry: DirEntry, path: string)
  {
    Qualifies(entry) && path == Join(archiveDir, entry.name)
  }

  /** A path is collected exactly when some regular-file entry with an archive name joins onto it. */
  lemma {:induction false} CandidatesAre(archiveDir: string, entries: seq<DirEntry>, path: string)
    ensures path in Candidates(archiveDir, entries) <==>
      exists j :: 0 <= j < |entries| && Yields(archiveDir, entries[j], path)
    decreases |entries|
  {
    if entries != [] {
      var n := |entries| - 1;
      var init := entries[..n];
      CandidatesAre(archiveDir, init, path);
      var found := Candidates(archiveDir, init);
      assert Candidates(archiveDir, entries)
        == found + (if Qualifies(entries[n]) then [Join(archiveDir, entries[n].name)] else []);
      if path in found {
        var j :| 0 <= j < |init| && Yields(archiveDir, init[j], path);
        assert init[j] == entries[j];
      } else if Yields(archiveDir, entries[n], path) {
      } else {
        forall j | 0 <= j < |entries|
          ensures !Yields(archiveDir, entries[j], path)
        {
          if j < n {
            assert init[j] == entries[j];
          }
        }
      }
    }
  }

  /**
   * `get_archives(archive_dir)` over the listing `entries`: the paths of the
   * regular files with archive names, joined onto the directory, ascending.
   */
  method GetArchives(archiveDir: string, entries: seq<DirEntry>) returns (archives: seq<string>)
    ensures Sorted(archives)
    ensures multiset(archives) == multiset(Candidates(archiveDir, entries))
    ensures forall path :: path in archives <==>
      exists j :: 0 <= j < |entries| && Yields(archiveDir, entries[j], path)
  {
    var found: seq<string> := [];
    for i := 0 to |entries|
      invariant found == Candidates(archiveDir, entries[..i])
    {
      var entry := entries[i];
      assert entries[..i + 1][..i] == entries[..i];
      if entry.isFile && IsArchive(entry.name) {
        found := found + [Join(archiveDir, entry.name)];
      }
    }
    assert entries[..|entries|] == entries;
    archives := Sort(found);
    SortSorted(found);
    forall path ensures path in archives <==>
      exists j :: 0 <= j < |entries| && Yields(archiveDir, entries[j], path)
    {
      assert path in archives <==> path in multiset(archives);
      assert path in found <==> path in multiset(found);
      CandidatesAre(archiveDir, entries, path);
    }
  }

  // ---------------------------------------------------------------------
  // extract_archives
  // ---------------------------------------------------------------------

  /** The file-system calls `extract_archives` makes, in order. */
  datatype Action =
    | MakeDir(path: string)                   // mkdir, an existing directory being no error
    | ExtractAll(archive: string, into: string) // tarfile.open(archive).extractall(into)

  /** The directory an archive is unpacked into: `out_dir` joined with its package name. */
  function ExtractDir(outDir: string, archivePath: string): string
  {
    Join(outDir, PackageName(Basename(archivePath)))
  }

  /** The directory each archive is unpacked into, in the order of the archives. */
  function ExtractDirs(outDir: string, archives: seq<string>): (dirs: seq<string>)
    ensures |dirs| == |archives|
    decreases |archives|
  {
    if archives == [] then []
    else
      var n := |archives| - 1;
      ExtractDirs(outDir, archives[..n]) + [ExtractDir(outDir, archives[n])]
  }

  /** The `k`-th directory is the one the `k`-th archive is unpacked into. */
  lemma {:induction false} ExtractDirsAt(outDir: string, archives: seq<string>, k: nat)
    requires k < |archives|
    ensures ExtractDirs(outDir, archives)[k] == ExtractDir(outDir, archives[k])
    decreases |archives|
  {
    var n := |archives| - 1;
    if k < n {
      ExtractDirsAt(outDir, archives[..n], k);
      assert archives[..n][k] == archives[k];
    }
  }

  /** The calls made for the archives, taken pairwise with their directories, in order. */
  function Plan(archives: seq<string>, dirs: seq<string>): seq<Action>
    requires |dirs| == |archives|
    decreases |archives|
  {
    if archives == [] then []
    else
      var n := |archives| - 1;
      Plan(archives[..n], dirs[..n]) + [MakeDir(dirs[n]), ExtractAll(archives[n], dirs[n])]
  }

  lemma {:induction false} PlanLength(archives: seq<string>, dirs: seq<string>)
    requires |dirs| == |archives|
    ensures |Plan(archives, dirs)| == 2 * |archives|
    decreases |archives|
  {
    if archives != [] {
      var n := |archives| - 1;
      PlanLength(archives[..n], dirs[..n]);
    }
  }

  /** One more archive adds its pair of calls at the end. */
  lemma PlanSnoc(archives: seq<string>, dirs: seq<string>, i: nat)
    requires |dirs| == |archives| && i < |archives|
    ensures Plan(archives[..i + 1], dirs[..i + 1])
      == Plan(archives[..i], dirs[..i]) + [MakeDir(dirs[i]), ExtractAll(archives[i], dirs[i])]
  {
    assert archives[..i + 1][..i] == archives[..i];
    assert dirs[..i + 1][..i] == dirs[..i];
  }

  /** The `k`-th archive gets two calls: its directory is created, then the archive is unpacked into it. */
  lemma {:induction false} PlanAt(archives: seq<string>, dirs: seq<string>, k: nat)
    requires |dirs| == |archives| && k < |archives|
    ensures |Plan(archives, dirs)| == 2 * |archives|
    ensures Plan(archives, dirs)[2 * k] == MakeDir(dirs[k])
    ensures Plan(archives, dirs)[2 * k + 1] == ExtractAll(archives[k], dirs[k])
    decreases |archives|
  {
    var n := |archives| - 1;
    PlanLength(archives[..n], dirs[..n]);
    if k < n {
      PlanAt(archives[..n], dirs[..n], k);
      assert archives[..n][k] == archives[k];
      assert dirs[..n][k] == dirs[k];
    }
  }

  /**
   * `extract_archives(archives, out_dir)`: create `out_dir`, then for each
   * archive in turn create its package directory and unpack the archive there.
   */
  method ExtractArchives(archives: seq<string>, outDir: string) returns (actions: seq<Action>)
    ensures actions == [MakeDir(outDir)] + Plan(archives, ExtractDirs(outDir, archives))
  {
    ghost var dirs := ExtractDirs(outDir, archives);
    actions := [MakeDir(outDir)];
    for i := 0 to |archives|
      invariant actions == [MakeDir(outDir)] + Plan(archives[..i], dirs[..i])
    {
      var archivePath := archives[i];
      var filename := Basename(archivePath);
      var package := PackageName(filename);
      var extractDir := Join(outDir, package);
      ExtractDirsAt(outDir, archives, i);
      PlanSnoc(archives, dirs, i);
      actions := actions + [MakeDir(extractDir), ExtractAll(archivePath, extractDir)];
    }
    assert archives[..|archives|] == archives;
    assert dirs[..|dirs|] == dirs;
  }

  /**
   * What the extractor does, call by call: it first creates `out_dir`; then
   * the `k`-th archive's package directory is created and the archive is
   * unpacked into it, as calls `2k + 1` and `2k + 2`; and nothing else.
   */
  lemma ExtractActionsAt(outDir: string, archives: seq<string>, k: nat)
    requires k < |archives|
    ensures var actions := [MakeDir(outDir)] + Plan(archives, ExtractDirs(outDir, archives));
      && |actions| == 1 + 2 * |archives|
      && actions[0] == MakeDir(outDir)
      && actions[1 + 2 * k] == MakeDir(ExtractDir(outDir, archives[k]))
      && actions[2 + 2 * k] == ExtractAll(archives[k], ExtractDir(outDir, archives[k]))
  {
    var dirs := ExtractDirs(outDir, archives);
    PlanAt(archives, dirs, k);
    ExtractDirsAt(outDir, archives, k);
  }

  /**
   * An archive found in `archive_dir` under the entry name `name` is unpacked
   * into `out_dir` joined with the part of `name` before its first `_`.
   */
  lemma ExtractDirOfListed(outDir: string, archiveDir: string, name: string)
    requires '/' !in name
    ensures ExtractDir(outDir, Join(archiveDir, name)) == Join(outDir, PackageName(name))
  {
    BasenameOfJoin(archiveDir, name);
  }
}
