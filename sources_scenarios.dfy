/**
 * What the model of `get_source_urls` yields for small `Sources`
 * fragments: first for arbitrary tokens, then for concrete file names.
 */
module SourcesScenarios {
  import opened PyStr
  import opened PackageExtract
  import opened NetSrcExtract

  /** A token as `split()` produces it: non-empty and without whitespace. */
  predicate Token(t: string)
  {
    t != [] && NoSpace(t)
  }

  /** A header line `key value`. */
  function Header(key: string, value: string): string
  {
    JoinWith([key, value], ' ')
  }

  /** A space-indented line of a file block. */
  function Indented(tokens: seq<string>): string
    requires |tokens| >= 1
  {
    " " + JoinWith(tokens, ' ')
  }

  lemma FirstChar(s: string, prefix: string)
    requires StartsWith(s, prefix) && prefix != []
    ensures s != [] && s[0] == prefix[0]
  {
    assert s[..|prefix|][0] == s[0];
  }

  lemma HeaderPrefix(key: string, value: string)
    ensures StartsWith(Header(key, value), key)
  {
    assert [key, value][1..] == [value];
    assert JoinWith([value], ' ') == value;
    assert Header(key, value) == key + [' '] + value;
    assert (key + " " + value)[..|key|] == key;
  }

  lemma StepPackageLine(st: ParseState, package: string)
    requires Token(package)
    ensures Step(st, Header("Package:", package)) == Some(Stepped(ParseState(package, "", false), []))
  {
    var line := Header("Package:", package);
    HeaderPrefix("Package:", package);
    assert Token("Package:");
    FieldsOfJoin(["Package:", package]);
    assert Fields(line) == ["Package:", package];
  }

  lemma StepDirectoryLine(st: ParseState, dir: string)
    requires Token(dir)
    ensures Step(st, Header("Directory:", dir)) == Some(Stepped(ParseState(st.package, dir, false), []))
  {
    var line := Header("Directory:", dir);
    HeaderPrefix("Directory:", dir);
    if StartsWith(line, "Package:") {
      FirstChar(line, "Package:");
      FirstChar(line, "Directory:");
    }
    assert Token("Directory:");
    FieldsOfJoin(["Directory:", dir]);
    assert Fields(line) == ["Directory:", dir];
  }

  lemma StepFilesLine(st: ParseState)
    ensures Step(st, "Files:") == Some(Stepped(st.(isFileLine := true), []))
  {
    assert "Files:"[..6] == "Files:";
    if StartsWith("Files:", "Package:") {
      FirstChar("Files:", "Package:");
    }
    if StartsWith("Files:", "Directory:") {
      FirstChar("Files:", "Directory:");
    }
  }

  /** A line the loop recognises neither as a header it knows nor as a file line. */
  predicate OtherHeader(line: string)
  {
    !StartsWith(line, " ") && !StartsWith(line, "Package:") && !StartsWith(line, "Directory:") && !StartsWith(line, "Files:")
  }

  /** `Checksums-Sha256:`, the header of the next block in a stanza, is such a line. */
  lemma ChecksumsHeaderIsOther()
    ensures OtherHeader("Checksums-Sha256:")
  {
    var line := "Checksums-Sha256:";
    if StartsWith(line, "Package:") { FirstChar(line, "Package:"); }
    if StartsWith(line, "Directory:") { FirstChar(line, "Directory:"); }
    if StartsWith(line, "Files:") { FirstChar(line, "Files:"); }
    if StartsWith(line, " ") { FirstChar(line, " "); }
  }

  lemma StepOtherHeader(st: ParseState, line: string)
    requires OtherHeader(line)
    ensures Step(st, line) == Some(Stepped(st.(isFileLine := false), []))
  {
  }

  lemma StepDataLine(st: ParseState, tokens: seq<string>)
    requires |tokens| >= 1
    requires forall i :: 0 <= i < |tokens| ==> Token(tokens[i])
    ensures Step(st, Indented(tokens)) ==
      if !st.isFileLine then Some(Stepped(st, []))
      else if |tokens| < 3 then None
      else Some(Stepped(st, if IsArchive(tokens[2]) then [Emission(st.package, st.directory, tokens[2])] else []))
  {
    var line := Indented(tokens);
    assert line[..1] == " ";
    HeadersExclusive(line);
    FieldsOfJoin(tokens);
  }

  /** A line that lists nothing extends a run that has listed nothing. */
  lemma RunQuiet(lines: seq<string>, line: string, before: ParseState, after: ParseState)
    requires Run(lines) == Ok(Stepped(before, []))
    requires Step(before, line) == Some(Stepped(after, []))
    ensures Run(lines + [line]) == Ok(Stepped(after, []))
  {
    assert (lines + [line])[..|lines|] == lines;
    var none: seq<Emission> := [];
    assert none + none == none;
  }

  /** A file line extends a run that has listed nothing by what it lists. */
  lemma RunLists(lines: seq<string>, line: string, st: ParseState, emitted: seq<Emission>)
    requires Run(lines) == Ok(Stepped(st, []))
    requires Step(st, line) == Some(Stepped(st, emitted))
    ensures Run(lines + [line]) == Ok(Stepped(st, emitted))
  {
    assert (lines + [line])[..|lines|] == lines;
    var none: seq<Emission> := [];
    assert none + emitted == emitted;
  }

  /** A line whose step fails ends the run with an error at that line. */
  lemma RunStops(lines: seq<string>, line: string, before: Stepped)
    requires Run(lines) == Ok(before)
    requires Step(before.state, line) == None
    ensures Run(lines + [line]) == Err(IndexError(|lines|))
  {
    assert (lines + [line])[..|lines|] == lines;
  }

  lemma OneEntryTable(base: string, e: Emission)
    ensures Table(base, [e]) == [Binding(e.package, [Url(base, e)])]
  {
    assert [e][..0] == [];
    assert Lookup([], e.package) + [Url(base, e)] == [Url(base, e)];
  }

  /** With no directory set, the URL has two slashes between the mirror and the file name. */
  lemma EmptyDirectoryUrl(base: string, package: string, filename: string)
    ensures Url(base, Emission(package, "", filename)) == base + "//" + filename
  {
    assert base + "/" + "" == base + "/";
    assert base + "/" + "/" == base + "//";
  }

  /** The lines of one package stanza: header, directory, `Files:` and one file line. */
  function Stanza(package: string, dir: string, checksum: string, size: string, filename: string): seq<string>
  {
    [Header("Package:", package), Header("Directory:", dir), "Files:", Indented([checksum, size, filename])]
  }

  lemma RunPackageDirectory(package: string, dir: string)
    requires Token(package) && Token(dir)
    ensures Run([Header("Package:", package), Header("Directory:", dir)])
      == Ok(Stepped(ParseState(package, dir, false), []))
  {
    var l0, l1 := Header("Package:", package), Header("Directory:", dir);
    StepPackageLine(Initial, package);
    RunQuiet([], l0, Initial, ParseState(package, "", false));
    assert [] + [l0] == [l0];
    StepDirectoryLine(ParseState(package, "", false), dir);
    RunQuiet([l0], l1, ParseState(package, "", false), ParseState(package, dir, false));
    assert [l0] + [l1] == [l0, l1];
  }

  lemma RunStanzaHead(package: string, dir: string)
    requires Token(package) && Token(dir)
    ensures Run([Header("Package:", package), Header("Directory:", dir), "Files:"])
      == Ok(Stepped(ParseState(package, dir, true), []))
  {
    var l0, l1 := Header("Package:", package), Header("Directory:", dir);
    RunPackageDirectory(package, dir);
    StepFilesLine(ParseState(package, dir, false));
    RunQuiet([l0, l1], "Files:", ParseState(package, dir, false), ParseState(package, dir, true));
    assert [l0, l1] + ["Files:"] == [l0, l1, "Files:"];
  }

  lemma RunStanza(package: string, dir: string, checksum: string, size: string, filename: string)
    requires Token(package) && Token(dir) && Token(checksum) && Token(size) && Token(filename)
    ensures Run(Stanza(package, dir, checksum, size, filename))
      == Ok(Stepped(ParseState(package, dir, true),
                    if IsArchive(filename) then [Emission(package, dir, filename)] else []))
  {
    var head := [Header("Package:", package), Header("Directory:", dir), "Files:"];
    var l3 := Indented([checksum, size, filename]);
    RunStanzaHead(package, dir);
    StepDataLine(ParseState(package, dir, true), [checksum, size, filename]);
    RunLists(head, l3, ParseState(package, dir, true),
      if IsArchive(filename) then [Emission(package, dir, filename)] else []);
    assert head + [l3] == Stanza(package, dir, checksum, size, filename);
  }

  /**
   * A package with its directory and a `Files:` block of one line yields
   * that file's URL under the package when the file passes the tar test,
   * and nothing otherwise.
   */
  lemma OnePackage(base: string, package: string, dir: string, checksum: string, size: string, filename: string)
    requires Token(package) && Token(dir) && Token(checksum) && Token(size) && Token(filename)
    ensures SourceUrls(base, Stanza(package, dir, checksum, size, filename))
      == Ok(if IsArchive(filename) then [Binding(package, [base + "/" + dir + "/" + filename])] else [])
  {
    RunStanza(package, dir, checksum, size, filename);
    if IsArchive(filename) {
      OneEntryTable(base, Emission(package, dir, filename));
    }
  }

  /** Printable ASCII other than the space is never whitespace. */
  lemma VisibleToken(t: string)
    requires t != []
    requires forall i :: 0 <= i < |t| ==> '!' <= t[i] <= '~'
    ensures Token(t)
  {
    forall c | c in t ensures !IsSpace(c) {
      var i :| 0 <= i < |t| && t[i] == c;
    }
  }

  lemma ExampleTokens()
    ensures Token("foo") && Token("pool/f/foo") && Token("0")
  {
    VisibleToken("foo");
    VisibleToken("pool/f/foo");
    VisibleToken("0");
  }

  lemma OrigToken()
    ensures Token("foo_1.0.orig.tar.gz")
  {
    VisibleToken("foo_1.0.orig.tar.gz");
  }

  lemma DebianToken()
    ensures Token("foo_1.0-1.debian.tar.xz")
  {
    VisibleToken("foo_1.0-1.debian.tar.xz");
  }

  lemma PatchToken()
    ensures Token("foo.patch")
  {
    VisibleToken("foo.patch");
  }

  /** The mirror and directory part of every URL of the example stanza. */
  lemma ExampleUrlPrefix(filename: string)
    ensures "http://archive.ubuntu.com" + "/" + "pool/f/foo" + "/" + filename
      == "http://archive.ubuntu.com/pool/f/foo/" + filename
  {
    assert "http://archive.ubuntu.com" + "/" + "pool/f/foo" + "/" == "http://archive.ubuntu.com/pool/f/foo/";
  }

  /**
   * The index example of one package with its original tarball, under the
   * default mirror: one URL, filed under the package, whatever the checksum.
   */
  lemma OrigTarball(checksum: string)
    requires Token(checksum)
    ensures SourceUrls("http://archive.ubuntu.com", Stanza("foo", "pool/f/foo", checksum, "0", "foo_1.0.orig.tar.gz"))
      == Ok([Binding("foo", ["http://archive.ubuntu.com/pool/f/foo/foo_1.0.orig.tar.gz"])])
  {
    ExampleUrlPrefix("foo_1.0.orig.tar.gz");
    assert "http://archive.ubuntu.com/pool/f/foo/" + "foo_1.0.orig.tar.gz" == "http://archive.ubuntu.com/pool/f/foo/foo_1.0.orig.tar.gz";
    CompressedTarballsAreArchives();
    ExampleTokens();
    OrigToken();
    OnePackage("http://archive.ubuntu.com", "foo", "pool/f/foo", checksum, "0", "foo_1.0.orig.tar.gz");
  }

  /** The same stanza with the Debian tarball also yields one URL: the compression suffix does not matter. */
  lemma DebianTarball(checksum: string)
    requires Token(checksum)
    ensures SourceUrls("http://archive.ubuntu.com", Stanza("foo", "pool/f/foo", checksum, "0", "foo_1.0-1.debian.tar.xz"))
      == Ok([Binding("foo", ["http://archive.ubuntu.com/pool/f/foo/foo_1.0-1.debian.tar.xz"])])
  {
    ExampleUrlPrefix("foo_1.0-1.debian.tar.xz");
    assert "http://archive.ubuntu.com/pool/f/foo/" + "foo_1.0-1.debian.tar.xz" == "http://archive.ubuntu.com/pool/f/foo/foo_1.0-1.debian.tar.xz";
    CompressedTarballsAreArchives();
    ExampleTokens();
    DebianToken();
    OnePackage("http://archive.ubuntu.com", "foo", "pool/f/foo", checksum, "0", "foo_1.0-1.debian.tar.xz");
  }

  lemma PatchIsNotArchive()
    ensures !IsArchive("foo.patch")
  {
    TwoComponentsNoTar("foo", "patch");
    assert "foo" + "." + "patch" == "foo.patch";
  }

  /** A patch file has no `tar` component, so a stanza listing only it yields no URL. */
  lemma PatchFileYieldsNothing(base: string, package: string, dir: string, checksum: string, size: string)
    requires Token(package) && Token(dir) && Token(checksum) && Token(size)
    ensures SourceUrls(base, Stanza(package, dir, checksum, size, "foo.patch")) == Ok([])
  {
    PatchIsNotArchive();
    PatchToken();
    OnePackage(base, package, dir, checksum, size, "foo.patch");
  }

  lemma RunFilesData(checksum: string, size: string, filename: string)
    requires Token(checksum) && Token(size) && Token(filename)
    ensures Run(["Files:", Indented([checksum, size, filename])])
      == Ok(Stepped(ParseState("", "", true), if IsArchive(filename) then [Emission("", "", filename)] else []))
  {
    var l1 := Indented([checksum, size, filename]);
    StepFilesLine(Initial);
    RunQuiet([], "Files:", Initial, ParseState("", "", true));
    assert [] + ["Files:"] == ["Files:"];
    StepDataLine(ParseState("", "", true), [checksum, size, filename]);
    RunLists(["Files:"], l1, ParseState("", "", true),
      if IsArchive(filename) then [Emission("", "", filename)] else []);
    assert ["Files:"] + [l1] == ["Files:", l1];
  }

  /** A file line that comes before any `Package:` header is filed under the empty package name. */
  lemma DataBeforePackage(base: string, checksum: string, size: string, filename: string)
    requires Token(checksum) && Token(size) && Token(filename) && IsArchive(filename)
    ensures SourceUrls(base, ["Files:", Indented([checksum, size, filename])])
      == Ok([Binding("", [base + "//" + filename])])
  {
    RunFilesData(checksum, size, filename);
    OneEntryTable(base, Emission("", "", filename));
    EmptyDirectoryUrl(base, "", filename);
  }

  /** A `Package:` header forgets the directory and the block of the package before it. */
  lemma RunRestart(p1: string, dir: string, p2: string)
    requires Token(p1) && Token(dir) && Token(p2)
    ensures Run([Header("Package:", p1), Header("Directory:", dir), Header("Package:", p2), "Files:"])
      == Ok(Stepped(ParseState(p2, "", true), []))
  {
    var l0, l1, l2 := Header("Package:", p1), Header("Directory:", dir), Header("Package:", p2);
    RunPackageDirectory(p1, dir);
    StepPackageLine(ParseState(p1, dir, false), p2);
    RunQuiet([l0, l1], l2, ParseState(p1, dir, false), ParseState(p2, "", false));
    assert [l0, l1] + [l2] == [l0, l1, l2];
    StepFilesLine(ParseState(p2, "", false));
    RunQuiet([l0, l1, l2], "Files:", ParseState(p2, "", false), ParseState(p2, "", true));
    assert [l0, l1, l2] + ["Files:"] == [l0, l1, l2, "Files:"];
  }

  /** The lines of a package header with its directory, followed by a second package's file block. */
  function Restarted(p1: string, dir: string, p2: string, checksum: string, size: string, filename: string): seq<string>
  {
    [Header("Package:", p1), Header("Directory:", dir), Header("Package:", p2), "Files:", Indented([checksum, size, filename])]
  }

  lemma RunRestarted(p1: string, dir: string, p2: string, checksum: string, size: string, filename: string)
    requires Token(p1) && Token(dir) && Token(p2) && Token(checksum) && Token(size) && Token(filename)
    ensures Run(Restarted(p1, dir, p2, checksum, size, filename))
      == Ok(Stepped(ParseState(p2, "", true),
                    if IsArchive(filename) then [Emission(p2, "", filename)] else []))
  {
    var head := [Header("Package:", p1), Header("Directory:", dir), Header("Package:", p2), "Files:"];
    var l4 := Indented([checksum, size, filename]);
    RunRestart(p1, dir, p2);
    StepDataLine(ParseState(p2, "", true), [checksum, size, filename]);
    RunLists(head, l4, ParseState(p2, "", true), if IsArchive(filename) then [Emission(p2, "", filename)] else []);
    assert head + [l4] == Restarted(p1, dir, p2, checksum, size, filename);
  }

  /**
   * A second `Package:` header right after a first one starts afresh: the
   * first package contributes nothing and its directory is not carried over,
   * so a file listed before any `Directory:` of the second package gets an
   * empty directory.
   */
  lemma DirectoryNotCarriedOver(base: string, p1: string, dir: string, p2: string,
                                checksum: string, size: string, filename: string)
    requires Token(p1) && Token(dir) && Token(p2) && Token(checksum) && Token(size) && Token(filename)
    requires IsArchive(filename)
    ensures SourceUrls(base, Restarted(p1, dir, p2, checksum, size, filename))
      == Ok([Binding(p2, [base + "//" + filename])])
  {
    RunRestarted(p1, dir, p2, checksum, size, filename);
    OneEntryTable(base, Emission(p2, "", filename));
    EmptyDirectoryUrl(base, p2, filename);
  }

  lemma RunFilesDirectory(dir: string)
    requires Token(dir)
    ensures Run(["Files:", Header("Directory:", dir)]) == Ok(Stepped(ParseState("", dir, false), []))
  {
    var l1 := Header("Directory:", dir);
    StepFilesLine(Initial);
    RunQuiet([], "Files:", Initial, ParseState("", "", true));
    assert [] + ["Files:"] == ["Files:"];
    StepDirectoryLine(ParseState("", "", true), dir);
    RunQuiet(["Files:"], l1, ParseState("", "", true), ParseState("", dir, false));
    assert ["Files:"] + [l1] == ["Files:", l1];
  }

  lemma RunFilesDirectoryData(dir: string, checksum: string, size: string, filename: string)
    requires Token(dir) && Token(checksum) && Token(size) && Token(filename)
    ensures Run(["Files:", Header("Directory:", dir), Indented([checksum, size, filename])])
      == Ok(Stepped(ParseState("", dir, false), []))
  {
    var head := ["Files:", Header("Directory:", dir)];
    var l2 := Indented([checksum, size, filename]);
    RunFilesDirectory(dir);
    StepDataLine(ParseState("", dir, false), [checksum, size, filename]);
    RunQuiet(head, l2, ParseState("", dir, false), ParseState("", dir, false));
    assert head + [l2] == ["Files:", head[1], l2];
  }

  /** A `Directory:` header ends a `Files:` block: the file line after it is ignored. */
  lemma DirectoryEndsFilesBlock(base: string, dir: string, checksum: string, size: string, filename: string)
    requires Token(dir) && Token(checksum) && Token(size) && Token(filename)
    ensures SourceUrls(base, ["Files:", Header("Directory:", dir), Indented([checksum, size, filename])]) == Ok([])
  {
    RunFilesDirectoryData(dir, checksum, size, filename);
  }

  lemma RunPackageDirectoryOther(package: string, dir: string, header: string)
    requires Token(package) && Token(dir) && OtherHeader(header)
    ensures Run([Header("Package:", package), Header("Directory:", dir), header])
      == Ok(Stepped(ParseState(package, dir, false), []))
  {
    var l0, l1 := Header("Package:", package), Header("Directory:", dir);
    RunPackageDirectory(package, dir);
    StepOtherHeader(ParseState(package, dir, false), header);
    RunQuiet([l0, l1], header, ParseState(package, dir, false), ParseState(package, dir, false));
    assert [l0, l1] + [header] == [l0, l1, header];
  }

  lemma RunOtherHeaderData(package: string, dir: string, header: string, checksum: string, size: string, filename: string)
    requires Token(package) && Token(dir) && OtherHeader(header) && Token(checksum) && Token(size) && Token(filename)
    ensures Run([Header("Package:", package), Header("Directory:", dir), header, Indented([checksum, size, filename])])
      == Ok(Stepped(ParseState(package, dir, false), []))
  {
    var head := [Header("Package:", package), Header("Directory:", dir), header];
    var l3 := Indented([checksum, size, filename]);
    RunPackageDirectoryOther(package, dir, header);
    StepDataLine(ParseState(package, dir, false), [checksum, size, filename]);
    RunQuiet(head, l3, ParseState(package, dir, false), ParseState(package, dir, false));
    assert head + [l3] == [head[0], head[1], header, l3];
  }

  /**
   * Any other header, such as `Checksums-Sha256:`, also ends the block: an
   * archive listed under it is not emitted.
   */
  lemma OtherHeaderEndsFilesBlock(base: string, package: string, dir: string, header: string,
                                  checksum: string, size: string, filename: string)
    requires Token(package) && Token(dir) && OtherHeader(header) && Token(checksum) && Token(size) && Token(filename)
    ensures SourceUrls(base, [Header("Package:", package), Header("Directory:", dir),
                              header, Indented([checksum, size, filename])]) == Ok([])
  {
    RunOtherHeaderData(package, dir, header, checksum, size, filename);
  }

  /** A file line with fewer than three fields inside a block is an index error at that line. */
  lemma ShortDataLine(base: string, package: string, dir: string, checksum: string, filename: string)
    requires Token(package) && Token(dir) && Token(checksum) && Token(filename)
    ensures SourceUrls(base, [Header("Package:", package), Header("Directory:", dir),
                              "Files:", Indented([checksum, filename])]) == Err(IndexError(3))
  {
    var head := [Header("Package:", package), Header("Directory:", dir), "Files:"];
    var l3 := Indented([checksum, filename]);
    RunStanzaHead(package, dir);
    StepDataLine(ParseState(package, dir, true), [checksum, filename]);
    RunStops(head, l3, Stepped(ParseState(package, dir, true), []));
    assert head + [l3] == [Header("Package:", package), Header("Directory:", dir), "Files:", l3];
  }

  /** A header without a value is an index error at that line. */
  lemma HeaderWithoutValue(base: string)
    ensures SourceUrls(base, ["Package:"]) == Err(IndexError(0))
  {
    assert "Package:"[..8] == "Package:";
    assert Fields("Package:") == ["Package:"] by {
      assert Token("Package:");
      FieldsOfJoin(["Package:"]);
    }
    assert ["Package:"][..0] == [];
  }
}
