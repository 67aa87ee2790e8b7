/**
 * The line loop of `get_source_urls` in `net-src-extract.py`: a single pass
 * over the lines of a Debian-style `Sources` index that maps each package
 * to the URLs of the tar archives listed in its `Files:` block.
 *
 * The loop keeps three variables (the current package, the current
 * directory and whether a `Files:` block is open) and a dictionary from
 * package to URL list, kept here as an association list so that Python's
 * insertion order is part of the result.
 */
module NetSrcExtract {
  import opened PyStr
  import opened PackageExtract

  // ---------------------------------------------------------------------
  // Parser state and one step of the loop
  // ---------------------------------------------------------------------

  /** `package`, `directory` and `is_file_line`. */
  datatype ParseState = ParseState(package: string, directory: string, isFileLine: bool)

  const Initial := ParseState("", "", false)

  /** One archive found in a `Files:` block, with the package and directory current at its line. */
  datatype Emission = Emission(package: string, directory: string, filename: string)

  /** `"%s/%s/%s" % (base_url, directory, filename)` */
  function Url(baseUrl: string, e: Emission): string
  {
    baseUrl + "/" + e.directory + "/" + e.filename
  }

  datatype Option<T> = None | Some(value: T)

  /** The `IndexError` a line with too few tokens raises, with the index of that line. */
  datatype ParseError = IndexError(lineIndex: nat)

  datatype Result<T> = Ok(value: T) | Err(error: ParseError)

  /** The state after some lines and the archives they listed, in line order. */
  datatype Stepped = Stepped(state: ParseState, emitted: seq<Emission>)

  /** The header prefixes the loop tests for exclude each other and a leading space. */
  lemma HeadersExclusive(line: string)
    ensures StartsWith(line, "Package:") ==> !StartsWith(line, "Directory:") && !StartsWith(line, "Files:")
    ensures StartsWith(line, "Directory:") ==> !StartsWith(line, "Files:")
    ensures StartsWith(line, " ") ==>
      !StartsWith(line, "Package:") && !StartsWith(line, "Directory:") && !StartsWith(line, "Files:")
  {
    if line != [] {
      assert StartsWith(line, "Package:") ==> line[0] == line[..8][0] == 'P';
      assert StartsWith(line, "Directory:") ==> line[0] == line[..10][0] == 'D';
      assert StartsWith(line, "Files:") ==> line[0] == line[..6][0] == 'F';
      assert StartsWith(line, " ") ==> line[0] == line[..1][0] == ' ';
    }
  }

  /** One iteration of the loop on `line`; `None` where `split()[1]` or `split()[2]` is out of range. */
  function Step(st: ParseState, line: string): Option<Stepped>
  {
    if StartsWith(line, "Package:") then
      var fields := Fields(line);
      if |fields| < 2 then None else Some(Stepped(ParseState(fields[1], "", false), []))
    else if StartsWith(line, "Directory:") then
      // no `continue` after the Directory: branch: the line then falls
      // through to the test for a leading space, which clears the flag
      var fields := Fields(line);
      if |fields| < 2 then None else Some(Stepped(ParseState(st.package, fields[1], false), []))
    else if StartsWith(line, "Files:") then
      Some(Stepped(st.(isFileLine := true), []))
    else if !StartsWith(line, " ") then
      Some(Stepped(st.(isFileLine := false), []))
    else if !st.isFileLine then
      Some(Stepped(st, []))
    else
      var fields := Fields(line);
      if |fields| < 3 then None
      else
        var filename := fields[2];
        Some(Stepped(st, if IsArchive(filename) then [Emission(st.package, st.directory, filename)] else []))
  }

  /** The loop over `lines`, stopping at the first line whose step fails. */
  function Run(lines: seq<string>): (r: Result<Stepped>)
    ensures r.Err? ==> r.error.lineIndex < |lines|
    decreases |lines|
  {
    if lines == [] then Ok(Stepped(Initial, []))
    else
      match Run(lines[..|lines| - 1])
      case Err(e) => Err(e)
      case Ok(s) =>
        match Step(s.state, lines[|lines| - 1])
        case None => Err(IndexError(|lines| - 1))
        case Some(t) => Ok(Stepped(t.state, s.emitted + t.emitted))
  }

  // ---------------------------------------------------------------------
  // The package_urls dictionary
  // ---------------------------------------------------------------------

  datatype Binding = Binding(package: string, urls: seq<string>)

  /** A dictionary from package to URL list, as its items in insertion order. */
  type UrlTable = seq<Binding>

  /** `list(package_urls)`: the keys in insertion order. */
  function Keys(t: UrlTable): seq<string>
    decreases |t|
  {
    if t == [] then [] else [t[0].package] + Keys(t[1..])
  }

  predicate Distinct(s: seq<string>)
  {
    forall i, j :: 0 <= i < j < |s| ==> s[i] != s[j]
  }

  /** `package_urls.get(k, [])`: the default `[]` for a key that is not present. */
  function Lookup(t: UrlTable, k: string): (urls: seq<string>)
    ensures k !in Keys(t) ==> urls == []
    decreases |t|
  {
    if t == [] then [] else if t[0].package == k then t[0].urls else Lookup(t[1..], k)
  }

  /**
   * `package_urls[k] = urls`: afterwards `k` maps to `urls`, every other key
   * to what it did before, and `k` is the last key if it was not yet present.
   */
  function Put(t: UrlTable, k: string, urls: seq<string>): (r: UrlTable)
    ensures Lookup(r, k) == urls
    ensures forall other :: other != k ==> Lookup(r, other) == Lookup(t, other)
    ensures Keys(r) == if k in Keys(t) then Keys(t) else Keys(t) + [k]
    decreases |t|
  {
    if t == [] then [Binding(k, urls)]
    else if t[0].package == k then [Binding(k, urls)] + t[1..]
    else
      var r := [t[0]] + Put(t[1..], k, urls);
      assert r[1..] == Put(t[1..], k, urls);
      assert Keys(t) == [t[0].package] + Keys(t[1..]);
      r
  }

  /** The dictionary after appending the URL of each emission to its package's list. */
  function Table(baseUrl: string, emitted: seq<Emission>): UrlTable
    decreases |emitted|
  {
    if emitted == [] then []
    else
      var t := Table(baseUrl, emitted[..|emitted| - 1]);
      var e := emitted[|emitted| - 1];
      Put(t, e.package, Lookup(t, e.package) + [Url(baseUrl, e)])
  }

  /** What `get_source_urls` returns for the decoded index lines. */
  function SourceUrls(baseUrl: string, lines: seq<string>): Result<UrlTable>
  {
    match Run(lines)
    case Err(e) => Err(e)
    case Ok(s) => Ok(Table(baseUrl, s.emitted))
  }

  // ---------------------------------------------------------------------
  // The loop itself
  // ---------------------------------------------------------------------

  lemma RunAfterError(lines: seq<string>, j: nat)
    requires j <= |lines| && Run(lines[..j]).Err?
    ensures Run(lines) == Run(lines[..j])
    decreases |lines| - j
  {
    if j < |lines| {
      assert lines[..j + 1][..j] == lines[..j];
      RunAfterError(lines, j + 1);
    } else {
      assert lines[..j] == lines;
    }
  }

  /** A line whose step succeeds extends the run by that step. */
  lemma RunStep(lines: seq<string>, i: nat, before: Stepped, after: Stepped)
    requires i < |lines| && Run(lines[..i]) == Ok(before)
    requires Step(before.state, lines[i]) == Some(after)
    ensures Run(lines[..i + 1]) == Ok(Stepped(after.state, before.emitted + after.emitted))
  {
    assert lines[..i + 1][..i] == lines[..i];
  }

  /** A line whose step fails ends the whole run with an error at that line. */
  lemma RunFails(baseUrl: string, lines: seq<string>, i: nat, before: Stepped)
    requires i < |lines| && Run(lines[..i]) == Ok(before)
    requires Step(before.state, lines[i]) == None
    ensures SourceUrls(baseUrl, lines) == Err(IndexError(i))
  {
    assert lines[..i + 1][..i] == lines[..i];
    RunAfterError(lines, i + 1);
  }

  /**
   * `get_source_urls` from line 17 on, over the lines of the decoded index
   * (the list produced by `split("\n")`).
   */
  method GetSourceUrls(baseUrl: string, sources: seq<string>) returns (result: Result<UrlTable>)
    ensures result == SourceUrls(baseUrl, sources)
  {
    var packageUrls: UrlTable := [];
    var package := "";
    var directory := "";
    var isFileLine := false;
    ghost var emitted: seq<Emission> := [];
    for i := 0 to |sources|
      invariant Run(sources[..i]) == Ok(Stepped(ParseState(package, directory, isFileLine), emitted))
      invariant packageUrls == Table(baseUrl, emitted)
    {
      var line := sources[i];
      ghost var before := Stepped(ParseState(package, directory, isFileLine), emitted);
      HeadersExclusive(line);
      assert emitted + [] == emitted;
      if StartsWith(line, "Package:") {
        var fields := Fields(line);
        if |fields| < 2 {
          RunFails(baseUrl, sources, i, before);
          return Err(IndexError(i));
        }
        package := fields[1];
        directory := "";
        isFileLine := false;
        RunStep(sources, i, before, Stepped(ParseState(package, directory, isFileLine), []));
        continue;
      }
      if StartsWith(line, "Directory:") {
        var fields := Fields(line);
        if |fields| < 2 {
          RunFails(baseUrl, sources, i, before);
          return Err(IndexError(i));
        }
        directory := fields[1];
      }
      if StartsWith(line, "Files:") {
        isFileLine := true;
        RunStep(sources, i, before, Stepped(ParseState(package, directory, isFileLine), []));
        continue;
      }
      if !StartsWith(line, " ") {
        isFileLine := false;
        RunStep(sources, i, before, Stepped(ParseState(package, directory, isFileLine), []));
        continue;
      }
      if !isFileLine {
        RunStep(sources, i, before, Stepped(before.state, []));
        continue;
      }
      var fields := Fields(line);
      if |fields| < 3 {
        RunFails(baseUrl, sources, i, before);
        return Err(IndexError(i));
      }
      var filename := fields[2];
      var exts := Split(filename, '.');
      if |exts| > 1 && "tar" in exts && (exts[|exts| - 1] == "tar" || exts[|exts| - 2] == "tar") {
        var urls := Lookup(packageUrls, package);
        urls := urls + [baseUrl + "/" + directory + "/" + filename];
        packageUrls := Put(packageUrls, package, urls);
        var e := Emission(package, directory, filename);
        RunStep(sources, i, before, Stepped(before.state, [e]));
        emitted := emitted + [e];
        assert emitted[..|emitted| - 1] == before.emitted;
      } else {
        RunStep(sources, i, before, Stepped(before.state, []));
      }
    }
    assert sources[..|sources|] == sources;
    result := Ok(packageUrls);
  }

  // ---------------------------------------------------------------------
  // The rules of one line
  // ---------------------------------------------------------------------

  /**
   * What each kind of line does to the state and to the list of archives: a
   * summary of `Step`'s branches, each with the earlier tests of the chain
   * resolved, so that it reads as a table of transitions.
   */
  lemma StepRules(st: ParseState, line: string)
    ensures StartsWith(line, "Package:") ==>
      Step(st, line) == if |Fields(line)| < 2 then None
                        else Some(Stepped(ParseState(Fields(line)[1], "", false), []))
    ensures StartsWith(line, "Files:") ==> Step(st, line) == Some(Stepped(st.(isFileLine := true), []))
    ensures !StartsWith(line, " ") && Step(st, line).Some? ==>
      && Step(st, line).value.emitted == []
      && (Step(st, line).value.state.isFileLine <==> StartsWith(line, "Files:"))
    ensures StartsWith(line, "Directory:") && Step(st, line).Some? ==>
      Step(st, line).value.state == ParseState(st.package, Fields(line)[1], false)
    ensures StartsWith(line, " ") && !st.isFileLine ==> Step(st, line) == Some(Stepped(st, []))
    ensures StartsWith(line, " ") && st.isFileLine ==>
      Step(st, line) == if |Fields(line)| < 3 then None
                        else Some(Stepped(st, if IsArchive(Fields(line)[2])
                                              then [Emission(st.package, st.directory, Fields(line)[2])]
                                              else []))
  {
    HeadersExclusive(line);
  }

  // ---------------------------------------------------------------------
  // The same computation stated by the most recent headers
  // ---------------------------------------------------------------------

  /** The second whitespace token of a header line, "" if it has none. */
  function HeaderValue(line: string): string
  {
    var fields := Fields(line);
    if |fields| >= 2 then fields[1] else ""
  }

  /** The value of the most recent `Package:` line, "" before the first one. */
  function CurrentPackage(lines: seq<string>): string
    decreases |lines|
  {
    if lines == [] then ""
    else if StartsWith(lines[|lines| - 1], "Package:") then HeaderValue(lines[|lines| - 1])
    else CurrentPackage(lines[..|lines| - 1])
  }

  /** The value of the most recent `Directory:` line since the most recent `Package:` line, else "". */
  function CurrentDirectory(lines: seq<string>): string
    decreases |lines|
  {
    if lines == [] then ""
    else if StartsWith(lines[|lines| - 1], "Package:") then ""
    else if StartsWith(lines[|lines| - 1], "Directory:") then HeaderValue(lines[|lines| - 1])
    else CurrentDirectory(lines[..|lines| - 1])
  }

  /** A `Files:` block is open: the most recent line that does not start with a space is `Files:`. */
  predicate InFilesBlock(lines: seq<string>)
    decreases |lines|
  {
    && lines != []
    && if StartsWith(lines[|lines| - 1], " ") then InFilesBlock(lines[..|lines| - 1])
       else StartsWith(lines[|lines| - 1], "Files:")
  }

  function StateAfter(lines: seq<string>): ParseState
  {
    ParseState(CurrentPackage(lines), CurrentDirectory(lines), InFilesBlock(lines))
  }

  /**
   * `line`, read after the lines `before`, has the tokens the loop indexes:
   * a value after a `Package:` or `Directory:` header, three tokens on a
   * space-indented line of an open `Files:` block.
   */
  predicate LineOk(before: seq<string>, line: string)
  {
    && (StartsWith(line, "Package:") || StartsWith(line, "Directory:") ==> |Fields(line)| >= 2)
    && (StartsWith(line, " ") && InFilesBlock(before) ==> |Fields(line)| >= 3)
  }

  predicate AllLinesOk(lines: seq<string>)
  {
    forall j :: 0 <= j < |lines| ==> LineOk(lines[..j], lines[j])
  }

  /** Line `j` is the first line without the tokens the loop indexes. */
  predicate FirstBadLine(lines: seq<string>, j: nat)
  {
    && j < |lines|
    && !LineOk(lines[..j], lines[j])
    && forall i :: 0 <= i < j ==> LineOk(lines[..i], lines[i])
  }

  /**
   * The archive `line` lists when read after `before`: the third token of a
   * space-indented line of an open `Files:` block, if it passes the tar test,
   * under the package and directory current at that line.
   */
  function ListedAt(before: seq<string>, line: string): seq<Emission>
  {
    if StartsWith(line, " ") && InFilesBlock(before) && |Fields(line)| >= 3 && IsArchive(Fields(line)[2])
    then [Emission(CurrentPackage(before), CurrentDirectory(before), Fields(line)[2])]
    else []
  }

  /** The archives all of `lines` list, in line order. */
  function Listed(lines: seq<string>): seq<Emission>
    decreases |lines|
  {
    if lines == [] then []
    else Listed(lines[..|lines| - 1]) + ListedAt(lines[..|lines| - 1], lines[|lines| - 1])
  }

  lemma StepMeaning(before: seq<string>, line: string)
    ensures Step(StateAfter(before), line).Some? <==> LineOk(before, line)
    ensures Step(StateAfter(before), line).Some? ==>
      Step(StateAfter(before), line).value == Stepped(StateAfter(before + [line]), ListedAt(before, line))
  {
    var lines := before + [line];
    assert lines[..|lines| - 1] == before;
    assert lines[|lines| - 1] == line;
    HeadersExclusive(line);
  }

  /** A non-empty list is its lines but the last, followed by the last. */
  lemma SnocOfInit(lines: seq<string>)
    requires lines != []
    ensures lines[..|lines| - 1] + [lines[|lines| - 1]] == lines
  {
  }

  /**
   * The loop succeeds exactly when every line has the tokens it indexes, and
   * then ends in the state the most recent headers determine, having listed
   * the archives of `Listed`; otherwise it fails at the first bad line.
   */
  lemma {:induction false} RunMeaning(lines: seq<string>)
    ensures Run(lines).Ok? <==> AllLinesOk(lines)
    ensures Run(lines).Ok? ==> Run(lines).value == Stepped(StateAfter(lines), Listed(lines))
    ensures Run(lines).Err? ==> FirstBadLine(lines, Run(lines).error.lineIndex)
    decreases |lines|
  {
    if lines != [] {
      var n := |lines|;
      var before := lines[..n - 1];
      var line := lines[n - 1];
      RunMeaning(before);
      SnocOfInit(lines);
      forall j | 0 <= j < n - 1 ensures before[..j] == lines[..j] && before[j] == lines[j] {
      }
      if Run(before).Ok? {
        StepMeaning(before, line);
      }
    }
  }

  // ---------------------------------------------------------------------
  // What the dictionary holds
  // ---------------------------------------------------------------------

  /** The URLs of the emissions for package `k`, in emission order. */
  function UrlsOf(baseUrl: string, emitted: seq<Emission>, k: string): seq<string>
    decreases |emitted|
  {
    if emitted == [] then []
    else
      var e := emitted[|emitted| - 1];
      UrlsOf(baseUrl, emitted[..|emitted| - 1], k) + (if e.package == k then [Url(baseUrl, e)] else [])
  }

  /** The packages of the emissions, each once, in order of first appearance. */
  function FirstSeen(emitted: seq<Emission>): seq<string>
    decreases |emitted|
  {
    if emitted == [] then []
    else
      var seen := FirstSeen(emitted[..|emitted| - 1]);
      var p := emitted[|emitted| - 1].package;
      if p in seen then seen else seen + [p]
  }

  /**
   * The dictionary's keys are the packages in order of their first archive,
   * and each package maps to the URLs of its archives in line order.
   */
  lemma {:induction false} TableMeaning(baseUrl: string, emitted: seq<Emission>)
    ensures Keys(Table(baseUrl, emitted)) == FirstSeen(emitted)
    ensures forall k :: Lookup(Table(baseUrl, emitted), k) == UrlsOf(baseUrl, emitted, k)
    decreases |emitted|
  {
    if emitted != [] {
      TableMeaning(baseUrl, emitted[..|emitted| - 1]);
    }
  }

  /** Each package is a key once, and only if it has at least one archive. */
  lemma {:induction false} FirstSeenMeaning(baseUrl: string, emitted: seq<Emission>)
    ensures Distinct(FirstSeen(emitted))
    ensures forall k :: k in FirstSeen(emitted) <==> UrlsOf(baseUrl, emitted, k) != []
    decreases |emitted|
  {
    if emitted != [] {
      FirstSeenMeaning(baseUrl, emitted[..|emitted| - 1]);
    }
  }

  lemma {:induction false} KeysAt(t: UrlTable, i: nat)
    requires i < |t|
    ensures |Keys(t)| == |t| && Keys(t)[i] == t[i].package
    decreases i
  {
    if i > 0 {
      KeysAt(t[1..], i - 1);
    } else {
      KeysLength(t);
    }
  }

  lemma {:induction false} KeysLength(t: UrlTable)
    ensures |Keys(t)| == |t|
    decreases |t|
  {
    if t != [] {
      KeysLength(t[1..]);
    }
  }

  /** With distinct keys, every item's list is what looking its key up gives. */
  lemma {:induction false} LookupBinding(t: UrlTable, i: nat)
    requires Distinct(Keys(t)) && i < |t|
    ensures Lookup(t, t[i].package) == t[i].urls
    decreases i
  {
    if i > 0 {
      KeysAt(t, 0);
      KeysAt(t, i);
      var tail := Keys(t[1..]);
      assert Keys(t) == [t[0].package] + tail;
      forall a, b | 0 <= a < b < |tail| ensures tail[a] != tail[b] {
        assert tail[a] == Keys(t)[a + 1] && tail[b] == Keys(t)[b + 1];
      }
      LookupBinding(t[1..], i - 1);
    }
  }

  lemma {:induction false} UrlsOfFrom(baseUrl: string, emitted: seq<Emission>, k: string, u: string)
    requires u in UrlsOf(baseUrl, emitted, k)
    ensures exists e :: e in emitted && e.package == k && u == Url(baseUrl, e)
    decreases |emitted|
  {
    var init := emitted[..|emitted| - 1];
    var e := emitted[|emitted| - 1];
    if u in UrlsOf(baseUrl, init, k) {
      UrlsOfFrom(baseUrl, init, k, u);
      var e' :| e' in init && e'.package == k && u == Url(baseUrl, e');
      assert e' in emitted;
    } else {
      assert e in emitted;
    }
  }

  // ---------------------------------------------------------------------
  // Properties of get_source_urls
  // ---------------------------------------------------------------------

  /**
   * `get_source_urls` fails at the first line without the tokens it indexes;
   * otherwise its keys are the packages in order of their first archive,
   * each once and each with at least one URL, and each maps to the URLs of
   * its archives in line order.
   */
  lemma SourceUrlsMeaning(baseUrl: string, lines: seq<string>)
    ensures SourceUrls(baseUrl, lines).Ok? <==> AllLinesOk(lines)
    ensures SourceUrls(baseUrl, lines).Err? ==> FirstBadLine(lines, SourceUrls(baseUrl, lines).error.lineIndex)
    ensures SourceUrls(baseUrl, lines).Ok? ==>
      var t := SourceUrls(baseUrl, lines).value;
      && Keys(t) == FirstSeen(Listed(lines))
      && Distinct(Keys(t))
      && (forall k :: Lookup(t, k) == UrlsOf(baseUrl, Listed(lines), k))
      && (forall i :: 0 <= i < |t| ==> t[i].urls == UrlsOf(baseUrl, Listed(lines), t[i].package) && t[i].urls != [])
  {
    RunMeaning(lines);
    if Run(lines).Ok? {
      var t := Table(baseUrl, Listed(lines));
      TableMeaning(baseUrl, Listed(lines));
      FirstSeenMeaning(baseUrl, Listed(lines));
      forall i | 0 <= i < |t|
        ensures t[i].urls == UrlsOf(baseUrl, Listed(lines), t[i].package) && t[i].urls != []
      {
        LookupBinding(t, i);
        KeysAt(t, i);
        assert t[i].package in Keys(t);
      }
    }
  }

  /** Every listed archive's file name is one whitespace-free token that passes the tar test. */
  lemma {:induction false} ListedAreArchives(lines: seq<string>)
    ensures forall e :: e in Listed(lines) ==> IsArchive(e.filename) && e.filename != [] && NoSpace(e.filename)
    decreases |lines|
  {
    if lines != [] {
      ListedAreArchives(lines[..|lines| - 1]);
    }
  }

  /**
   * Every URL in the result is `base_url/directory/filename` for an archive
   * listed under that package, whose file name passes the tar test.
   */
  lemma ResultUrlsAreArchives(baseUrl: string, lines: seq<string>)
    requires SourceUrls(baseUrl, lines).Ok?
    ensures var t := SourceUrls(baseUrl, lines).value;
      forall i, u :: 0 <= i < |t| && u in t[i].urls ==>
        exists e :: e in Listed(lines) && e.package == t[i].package && u == Url(baseUrl, e) && IsArchive(e.filename)
  {
    SourceUrlsMeaning(baseUrl, lines);
    ListedAreArchives(lines);
    var t := SourceUrls(baseUrl, lines).value;
    forall i, u | 0 <= i < |t| && u in t[i].urls
      ensures exists e :: e in Listed(lines) && e.package == t[i].package && u == Url(baseUrl, e) && IsArchive(e.filename)
    {
      UrlsOfFrom(baseUrl, Listed(lines), t[i].package, u);
    }
  }

  /** Before the first `Package:` line the current package is the empty name. */
  lemma {:induction false} NoHeaderNoPackage(lines: seq<string>)
    requires forall j :: 0 <= j < |lines| ==> !StartsWith(lines[j], "Package:")
    ensures CurrentPackage(lines) == ""
    ensures forall e :: e in Listed(lines) ==> e.package == ""
    decreases |lines|
  {
    if lines != [] {
      var init := lines[..|lines| - 1];
      assert forall j :: 0 <= j < |init| ==> init[j] == lines[j];
      NoHeaderNoPackage(init);
    }
  }
}
