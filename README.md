# Ubuntu source-archive scripts, modelled in Dafny

This project models two small Python scripts that download and unpack Ubuntu
source packages.

- `net-src-extract.py` reads a mirror's `Sources` index line by line. It
  builds a dictionary from package name to the URLs of the tar archives
  listed in each package's `Files:` block.
- `package-extract.py` lists a directory for tar archives, sorts them, and
  unpacks each one into a per-package directory under an output directory.

The model has these modules:

- `PyStr` (`py_str.dfy`) holds the Python `str` operations the scripts use:
  `startswith`, `split(sep)` and `split()` on whitespace. The scripts never
  call `join`: `JoinWith` exists only to state the round trip of `split(sep)`.
- `Sorting` (`sorting.dfy`) holds `sorted` and the code-point order it
  compares strings by, in its reflexive form `Le`.
- `PosixPath` (`posix_path.dfy`) holds `os.path.join` and `os.path.basename`.
- `PackageExtract` (`package_extract.dfy`) holds `is_archive`, the package
  name of a file name, `get_archives` over a given directory listing, and
  `extract_archives`. The extractor is a method that returns the file-system
  calls it would make, in order.
- `NetSrcExtract` (`net_src_extract.dfy`) holds the parsing loop of
  `get_source_urls` as a method with a loop. It is proved equal to a
  functional run of a one-line step function. That run is in turn
  characterised by the most recent headers seen.
- `SourcesScenarios` (`sources_scenarios.dfy`) proves what the model
  yields for small index fragments: one stanza, a patch file, a file line
  before any package, two consecutive packages, a block ended by another
  header, and malformed lines.

Where the code departs from what the `Sources` format suggests, the model
follows the code:

- Only a line that starts with a space counts as a continuation line. A line
  starting with a tab is treated as a header.
- Any line that does not start with a space and is not `Files:` closes an
  open `Files:` block. That includes blank lines, unknown headers and
  `Directory:` lines, because the `Directory:` branch has no `continue`.
  Blank lines and unknown headers never change the package or the
  directory.
- A too-short `Package:`, `Directory:` or file line raises `IndexError` and
  ends the parse. That error is modelled as `IndexError(i)`, where `i` is
  the index of the line. A file line with more than three tokens is accepted
  and its third token is taken. Checksums and sizes are never checked.
- The result is a dictionary from package to URL list, not a list of
  records. URLs are `base/directory/filename`, so an empty directory gives
  `base//filename`.
- The index URL is built with `/ubuntu` after the base URL, but the archive
  URLs are not (net-src-extract.py:14 and :47). The model keeps the archive
  URLs as written.

## Model

| member | source | states |
|---|---|---|
| PyStr.StartsWith | net-src-extract.py:22-35 | `str.startswith`; has no contract of its own: `NetSrcExtract.HeadersExclusive` proves the four prefixes the loop tests exclude each other |
| PyStr.Split | package-extract.py:30 | `str.split(sep)` returns at least one piece, and no piece contains the separator |
| PyStr.JoinSplit | package-extract.py:30 | joining the pieces of a split with the separator gives back the original string |
| PyStr.SplitJoin | package-extract.py:30 | splitting a join of separator-free pieces gives back the pieces |
| PyStr.SplitHead | package-extract.py:51 | the first piece is a prefix of the string, followed by the separator or the end |
| PyStr.IsSpace | net-src-extract.py:23 | Python's `str.isspace`, the separators of `split()` at lines 23, 29 and 42: U+0009–U+000D, U+001C–U+001F, U+0020, U+0085, U+00A0, U+1680, U+2000–U+200A, U+2028, U+2029, U+202F, U+205F and U+3000, not just ASCII whitespace; has no contract of its own: `TokenLength`, `Fields`, `FieldsKeepText` and `FieldsAround` state how `split()` uses it |
| PyStr.TokenLength | net-src-extract.py:23 | the leading run of non-whitespace stops at whitespace or at the end |
| PyStr.Fields | net-src-extract.py:23 | `str.split()` returns only non-empty tokens without whitespace |
| PyStr.FieldsKeepText | net-src-extract.py:42 | `str.split()` drops exactly the whitespace: its tokens, concatenated, are the non-whitespace characters in order |
| PyStr.FieldsAround | net-src-extract.py:23 | `str.split()` breaks at every whitespace character: the fields of `a + w + b`, for a whitespace `w`, are the fields of `a` followed by those of `b` |
| PyStr.FieldsFirstTokenAppend | net-src-extract.py:23 | a leading token is the first field, and text starting with whitespace appended after it does not change that token |
| PyStr.FieldsOfJoin | net-src-extract.py:42 | `str.split()` inverts joining tokens with single spaces, with or without a leading indent |
| Sorting.Le | package-extract.py:43 | the reflexive form of the code-point order `sorted` compares strings by with `<`; has no contract of its own: `LeTotal`, `LeTransitive` and `LeAntisymmetric` prove it is a total order |
| Sorting.LeTotal | package-extract.py:43 | Python's string order is total |
| Sorting.LeTransitive | package-extract.py:43 | Python's string order is transitive |
| Sorting.LeAntisymmetric | package-extract.py:43 | Python's string order is antisymmetric |
| Sorting.Insert | package-extract.py:43 | inserting adds exactly one copy of the element to the multiset |
| Sorting.Sort | package-extract.py:43 | `sorted` returns a permutation of its input |
| Sorting.InsertAbove | package-extract.py:43 | a lower bound of the element and of the list bounds the list after insertion |
| Sorting.InsertSorted | package-extract.py:43 | inserting into an ascending list keeps it ascending |
| Sorting.SortSorted | package-extract.py:43 | `sorted` returns an ascending list |
| Sorting.SortedUnique | package-extract.py:43 | two ascending permutations of each other are equal, so `sorted`'s result is fully determined |
| PosixPath.Join | package-extract.py:41-52 | `os.path.join` at lines 41 and 52; has no contract of its own: `BasenameOfJoin` and `ExtractDirOfListed` state what the joins mean for the base name and the package directory |
| PosixPath.Basename | package-extract.py:50 | the base name contains no `/` |
| PosixPath.BasenameIsLastComponent | package-extract.py:50 | the base name is the suffix after the last `/`, or the whole path when it has none |
| PosixPath.BasenameAfterSlash | package-extract.py:50 | a slash-free name after a `/`, or at the start, is the base name |
| PosixPath.BasenameOfJoin | package-extract.py:41 | the base name of `os.path.join(dir, name)` is `name` for every slash-free `name` |
| PackageExtract.IsArchive | package-extract.py:29-34 | `is_archive`, also inlined at net-src-extract.py:45; has no contract of its own: `IsArchiveLastTwo`, `TarWithAnySuffix`, `TarTooEarly`, `TwoComponentsNoTar` and `NoDotNoArchive` state which names it accepts |
| PackageExtract.IsArchiveLastTwo | package-extract.py:29-34 | the `"tar" in exts` test is implied by the test of the last two components, in both directions |
| PackageExtract.NoDotNoArchive | package-extract.py:29-34 | a name without a dot, `tar` included, is not an archive |
| PackageExtract.TarLast | package-extract.py:30 | the components of `stem.tar` are those of `stem` followed by `tar` |
| PackageExtract.TarSecondLast | package-extract.py:30 | the components of `stem.tar.sfx` are those of `stem` followed by `tar` and `sfx` |
| PackageExtract.TarWithAnySuffix | package-extract.py:29-34 | `stem.tar` and `stem.tar.sfx` are archives for every stem and every dot-free suffix |
| PackageExtract.TarTooEarly | package-extract.py:29-34 | a name whose last two components are not `tar` is rejected, whatever comes before them |
| PackageExtract.TwoComponentsNoTar | package-extract.py:29-34 | a two-component name with no `tar` component is rejected |
| PackageExtract.CompressedTarballsAreArchives | package-extract.py:29-34 | `.orig.tar.gz`, `.debian.tar.xz` and plain `.tar` names are archives |
| PackageExtract.OtherFilesAreNotArchives | package-extract.py:29-34 | `tar`, a `.dsc` file and `a.tar.gz.sig` are not archives |
| PackageExtract.PackageName | package-extract.py:51 | the package name contains no `_` |
| PackageExtract.PackageNameIsPrefix | package-extract.py:51 | the package name is the prefix before the first `_`, or the whole name |
| PackageExtract.PackageNameWithoutUnderscore | package-extract.py:51 | a name without `_` is its own package name |
| PackageExtract.PackageNameBeforeUnderscore | package-extract.py:51 | the package name of `package_rest` is `package`, whatever `rest` is |
| PackageExtract.PackageNameExamples | package-extract.py:51 | the package names of two concrete Ubuntu archive names |
| PackageExtract.Qualifies | package-extract.py:40 | `entry.is_file() and is_archive(entry.name)`; has no contract of its own: `CandidatesAre` and `GetArchives` state that exactly the qualifying entries' paths are collected |
| PackageExtract.Candidates | package-extract.py:37-41 | the paths the scan appends, in listing order; has no contract of its own: `CandidatesAre` states which paths are collected |
| PackageExtract.CandidatesAre | package-extract.py:38-41 | a path is collected exactly when some regular-file entry with an archive name joins onto it |
| PackageExtract.GetArchives | package-extract.py:36-43 | the result is ascending, is a permutation of the collected paths, and contains exactly the paths of qualifying entries |
| PackageExtract.ExtractDir | package-extract.py:50-52 | the directory one archive is unpacked into; has no contract of its own: `ExtractDirsAt` and `ExtractDirOfListed` state it |
| PackageExtract.ExtractDirs | package-extract.py:49-52 | there is one extraction directory per archive |
| PackageExtract.ExtractDirsAt | package-extract.py:50-52 | the `k`-th directory is `out_dir` joined with the package name of the `k`-th archive's base name |
| PackageExtract.Plan | package-extract.py:49-55 | the `mkdir` and extraction calls per archive, in order; has no contract of its own: `PlanLength`, `PlanSnoc` and `PlanAt` state its shape |
| PackageExtract.PlanLength | package-extract.py:49-55 | the archives produce two calls each |
| PackageExtract.PlanSnoc | package-extract.py:49-55 | one more archive appends its `mkdir` and its extraction to the calls |
| PackageExtract.PlanAt | package-extract.py:53-55 | calls `2k` and `2k+1` create the `k`-th directory and then unpack the `k`-th archive into it |
| PackageExtract.ExtractArchives | package-extract.py:45-59 | the calls are `mkdir(out_dir)` and then, per archive in order, the `mkdir` of its package directory and its extraction there |
| PackageExtract.ExtractActionsAt | package-extract.py:45-55 | there are `1 + 2n` calls; call 0 creates `out_dir`; calls `2k+1` and `2k+2` create the `k`-th package directory and unpack the `k`-th archive into it |
| PackageExtract.ExtractDirOfListed | package-extract.py:41-52 | an archive listed under entry name `name` is unpacked into `out_dir` joined with the part of `name` before its first `_` |
| NetSrcExtract.HeadersExclusive | net-src-extract.py:22-35 | the `Package:`, `Directory:`, `Files:` and leading-space tests exclude each other |
| NetSrcExtract.Step | net-src-extract.py:22-45 | one iteration of the loop; has no contract of its own: `StepRules` summarises its branches and `StepMeaning` states it by the most recent headers |
| NetSrcExtract.Run | net-src-extract.py:21-45 | the loop over the lines, stopping at the first failing line; an error is always at the index of an existing line, and `RunMeaning` states the rest |
| NetSrcExtract.Lookup | net-src-extract.py:46 | `package_urls.get(package, [])`: a key that is not present gives the default `[]` |
| NetSrcExtract.Url | net-src-extract.py:47 | `"%s/%s/%s" % (base_url, directory, filename)`; has no contract of its own: `ResultUrlsAreArchives` and `SourcesScenarios.EmptyDirectoryUrl` use it |
| NetSrcExtract.Table | net-src-extract.py:46-48 | the dictionary after the emissions in order; has no contract of its own: `TableMeaning` and `FirstSeenMeaning` state its keys and lists |
| NetSrcExtract.SourceUrls | net-src-extract.py:17-50 | what the loop returns; has no contract of its own: `SourceUrlsMeaning` states it, and `GetSourceUrls` is proved equal to it |
| NetSrcExtract.Keys | net-src-extract.py:46-48 | the dictionary's keys in insertion order; has no contract of its own: `KeysLength`, `KeysAt`, `Put`, `TableMeaning` and `SourceUrlsMeaning` state them |
| NetSrcExtract.Put | net-src-extract.py:48 | after `package_urls[k] = urls`, `k` maps to `urls`, every other key is unchanged, and `k` is added as the last key if it is new |
| NetSrcExtract.RunAfterError | net-src-extract.py:21-42 | once a line raises an error, the lines after it do not change the outcome |
| NetSrcExtract.RunStep | net-src-extract.py:21 | a line whose step succeeds extends the run by that step |
| NetSrcExtract.RunFails | net-src-extract.py:21-42 | a line whose step fails aborts the whole call with an error at that line |
| NetSrcExtract.GetSourceUrls | net-src-extract.py:17-50 | the loop returns the dictionary of the functional run, or the `IndexError` of the first failing line |
| NetSrcExtract.StepRules | net-src-extract.py:22-45 | what each kind of line does: `Package:` resets, `Directory:` sets the directory and closes the block, `Files:` opens it, other lines close it, and indented lines in a block list their third token when it passes the tar test |
| NetSrcExtract.StepMeaning | net-src-extract.py:22-45 | one step succeeds exactly when the line has the tokens the loop indexes, and then moves to the state the most recent headers determine |
| NetSrcExtract.RunMeaning | net-src-extract.py:21-48 | the loop succeeds exactly when every line has its tokens; it then ends in the header-determined state having listed `Listed(lines)`; otherwise it fails at the first bad line |
| NetSrcExtract.TableMeaning | net-src-extract.py:46-48 | the keys are the packages in order of their first archive, and each maps to its archives' URLs in line order |
| NetSrcExtract.FirstSeenMeaning | net-src-extract.py:46-48 | each package is a key once, and only if it has at least one URL |
| NetSrcExtract.KeysAt | net-src-extract.py:48 | the `i`-th key is the package of the `i`-th item |
| NetSrcExtract.KeysLength | net-src-extract.py:48 | there is one key per item |
| NetSrcExtract.LookupBinding | net-src-extract.py:46 | with distinct keys, looking up an item's key gives that item's list |
| NetSrcExtract.UrlsOfFrom | net-src-extract.py:47 | every URL of a package comes from an archive listed under that package |
| NetSrcExtract.SourceUrlsMeaning | net-src-extract.py:17-50 | the call fails exactly at the first bad line; otherwise its keys are distinct, in first-archive order, each with a non-empty list of its archives' URLs in line order |
| NetSrcExtract.ListedAreArchives | net-src-extract.py:42-45 | every listed file name is a whitespace-free token that passes the tar test |
| NetSrcExtract.ResultUrlsAreArchives | net-src-extract.py:45-48 | every URL in the result is `base/directory/filename` for an archive listed under that package |
| NetSrcExtract.NoHeaderNoPackage | net-src-extract.py:18-46 | before the first `Package:` line, archives are filed under the empty package name |
| SourcesScenarios.StepPackageLine | net-src-extract.py:22-26 | a `Package: p` line sets the package to `p` and resets the directory and the block |
| SourcesScenarios.StepDirectoryLine | net-src-extract.py:28-37 | a `Directory: d` line sets the directory to `d`, keeps the package and closes the block |
| SourcesScenarios.StepFilesLine | net-src-extract.py:31-33 | a `Files:` line opens the block |
| SourcesScenarios.ChecksumsHeaderIsOther | net-src-extract.py:35-37 | `Checksums-Sha256:` is handled as an unknown header |
| SourcesScenarios.StepDataLine | net-src-extract.py:35-45 | an indented line outside a block is skipped; inside one it fails with fewer than three tokens and otherwise lists its third token if that passes the tar test |
| SourcesScenarios.OnePackage | net-src-extract.py:17-50 | a one-file stanza yields that file's URL under its package when the file passes the tar test, and nothing otherwise |
| SourcesScenarios.OrigTarball | net-src-extract.py:17-50 | the `foo_1.0.orig.tar.gz` stanza under the default mirror yields exactly one URL under `foo` |
| SourcesScenarios.DebianTarball | net-src-extract.py:17-50 | the `foo_1.0-1.debian.tar.xz` stanza also yields exactly one URL |
| SourcesScenarios.PatchFileYieldsNothing | net-src-extract.py:43-45 | a stanza listing only a patch file yields an empty dictionary |
| SourcesScenarios.DataBeforePackage | net-src-extract.py:18-47 | an archive listed before any `Package:` line is filed under `""` with URL `base//filename` |
| SourcesScenarios.DirectoryNotCarriedOver | net-src-extract.py:22-26 | a second `Package:` line discards the first package's directory, and the first package contributes nothing |
| SourcesScenarios.DirectoryEndsFilesBlock | net-src-extract.py:28-37 | a `Directory:` line after `Files:` closes the block, so the following file line is ignored |
| SourcesScenarios.OtherHeaderEndsFilesBlock | net-src-extract.py:35-37 | any unknown header closes the block, so the following file line is ignored |
| SourcesScenarios.ShortDataLine | net-src-extract.py:42 | a file line with two tokens in a block is an `IndexError` at that line |
| SourcesScenarios.HeaderWithoutValue | net-src-extract.py:23 | a `Package:` line without a value is an `IndexError` at that line |

## Left out

- The download and gzip decoding of the index (net-src-extract.py:14-15) are left out. The model starts from the list of decoded lines.
- The module constants and the top-level call (net-src-extract.py:7-9, 52) are left out. The base URL is a parameter.
- The `SourceArchive` named tuple (net-src-extract.py:11) is never used by the code, so it is not modelled.
- `os.scandir` is replaced by a given listing of entries with their names and regular-file flags. The scan order is whatever that listing's order is.
- PackageExtract.GetArchives: entry names are strings of Unicode scalar values. `os.scandir` on a `str` path turns bytes that are not valid UTF-8 into lone surrogates U+DC80–U+DCFF, so a name such as `caf\udce9.tar.gz` from a Latin-1 file name is not modelled, nor where `sorted` places it (between U+D7FF and U+E000). The index read by net-src-extract.py is decoded strictly, so it never holds such characters.
- `mkdir`, `tarfile.open` and `extractall` are not performed. `extract_archives` returns the calls it would make, in order. The model does not capture what an extraction writes, or the failure of a corrupt archive. An existing directory is no error for `mkdir`, so a `MakeDir` action stands for success either way.
- The `tqdm` progress bar, `argparse`, the `SIGINT` handler and the `__main__` block of package-extract.py are I/O or process control, so they are not modelled.
- NetSrcExtract.GetSourceUrls: the source appends to the list object that `get` returned, which may be the list already stored in the dictionary. The model appends to a copy and stores it back. The resulting dictionary is the same, but list aliasing is not modelled.
- Checksum verification, staleness checks, downloading and deleting archives are not part of these two scripts, so they are not modelled.
