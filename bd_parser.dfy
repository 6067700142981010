/** The filesystem loader and the analyzers of `lib/bd-parser.ts`: JSONL
    parsing with per-line fault isolation, the bounded search for `.beads`
    marker directories, repository naming, the multi-repository load, the
    dependency-graph builder, the one-hop readiness filter and the metrics.

    The filesystem is an input: a directory tree for each scan root, the state
    of each marker's `issues.jsonl`, and the listing of each marker directory.
    `JSON.parse` of one line is the parameter `parseLine`. */
module BdParser {
  import opened Lists
  import opened Strings
  import opened Types
  import opened MultiRepo

  // ---------------------------------------------------------------------------
  // JSONL parsing
  // ---------------------------------------------------------------------------

  /** What reading a file gives: it is absent, reading it throws, or its text. */
  datatype FileState = Missing | Unreadable | Text(content: string)

  /** `JSON.parse(line) as Issue`, with `None` where it throws. */
  type LineParser = string -> Option<Issue>

  function IsNonBlank(): string -> bool {
    (line: string) => Trim(line) != ""
  }

  /** The lines of a file: the trimmed text split on `"\n"`. */
  function Lines(content: string): seq<string> {
    Split(Trim(content), '\n')
  }

  /** The lines `filter(line => line.trim())` keeps. */
  function NonBlankLines(content: string): seq<string> {
    Filter(Lines(content), IsNonBlank())
  }

  /** Each line parsed on its own; a line that fails to parse is dropped. */
  function ParseLines(lines: seq<string>, parseLine: LineParser): (r: seq<Issue>)
    ensures |r| <= |lines|
  {
    if lines == [] then []
    else
      var init := lines[..|lines| - 1];
      var last := lines[|lines| - 1];
      match parseLine(last)
      case None => ParseLines(init, parseLine)
      case Some(x) => ParseLines(init, parseLine) + [x]
  }

  /** Every issue kept comes from a line that parses to it. */
  lemma {:induction false} ParseLinesProvenance(lines: seq<string>, parseLine: LineParser, x: Issue)
    requires x in ParseLines(lines, parseLine)
    ensures exists k :: 0 <= k < |lines| && parseLine(lines[k]) == Some(x)
    decreases |lines|
  {
    var n := |lines| - 1;
    var init := lines[..n];
    if x in ParseLines(init, parseLine) {
      ParseLinesProvenance(init, parseLine, x);
      var k :| 0 <= k < n && parseLine(init[k]) == Some(x);
      assert lines[k] == init[k];
    } else {
      assert parseLine(lines[n]) == Some(x);
    }
  }

  /** Line-level fault isolation: the issues of two runs of lines are parsed
      independently of each other, and kept in order. */
  lemma {:induction false} ParseLinesAppend(a: seq<string>, b: seq<string>, parseLine: LineParser)
    ensures ParseLines(a + b, parseLine) == ParseLines(a, parseLine) + ParseLines(b, parseLine)
    decreases |b|
  {
    if b == [] {
      assert a + b == a;
    } else {
      assert (a + b)[..|a + b| - 1] == a + b[..|b| - 1];
      ParseLinesAppend(a, b[..|b| - 1], parseLine);
    }
  }

  /** When no line is malformed, every line yields its issue, in order. */
  lemma {:induction false} ParseLinesAllValid(lines: seq<string>, parseLine: LineParser)
    requires forall k :: 0 <= k < |lines| ==> parseLine(lines[k]).Some?
    ensures |ParseLines(lines, parseLine)| == |lines|
    ensures forall k :: 0 <= k < |lines| ==> ParseLines(lines, parseLine)[k] == parseLine(lines[k]).value
    decreases |lines|
  {
    if lines != [] {
      var n := |lines| - 1;
      var init := lines[..n];
      forall k | 0 <= k < n ensures parseLine(init[k]).Some? {
        assert init[k] == lines[k];
      }
      ParseLinesAllValid(init, parseLine);
      ParseLinesSnoc(lines, parseLine);
      var r, ri := ParseLines(lines, parseLine), ParseLines(init, parseLine);
      forall k | 0 <= k < n ensures r[k] == parseLine(lines[k]).value {
        assert r[k] == ri[k] && init[k] == lines[k];
      }
    }
  }

  /** A last line that parses adds its issue at the end. */
  lemma ParseLinesSnoc(lines: seq<string>, parseLine: LineParser)
    requires lines != [] && parseLine(lines[|lines| - 1]).Some?
    ensures ParseLines(lines, parseLine) == ParseLines(lines[..|lines| - 1], parseLine) + [parseLine(lines[|lines| - 1]).value]
  {
  }

  /** The issues of a JSONL text. */
  function ParseJsonlText(content: string, parseLine: LineParser): (r: seq<Issue>)
    ensures |r| <= |NonBlankLines(content)|
  {
    ParseLines(NonBlankLines(content), parseLine)
  }

  /** `parseJSONLFile`: the issues of a file; a file that cannot be read gives none. */
  function ParseJsonlFile(file: FileState, parseLine: LineParser): (r: seq<Issue>)
    ensures !file.Text? ==> r == []
    ensures file.Text? ==> |r| <= |NonBlankLines(file.content)|
  {
    match file
    case Text(content) => ParseJsonlText(content, parseLine)
    case _ => []
  }

  /** A text of whitespace only holds no issue. */
  lemma BlankTextHasNoIssues(content: string, parseLine: LineParser)
    requires AllWhitespace(content)
    ensures ParseJsonlText(content, parseLine) == []
  {
    TrimEmptyIffBlank(content);
    assert Lines(content) == [""];
    TrimEmptyIffBlank("");
  }

  /** The lines `write` produces for a list of issues, one per issue. */
  function WriteLines(issues: seq<Issue>, write: Issue -> string): seq<string> {
    seq(|issues|, k requires 0 <= k < |issues| => write(issues[k]))
  }

  /** A serializer whose lines `parseLine` reads back and that writes one
      non-blank line per issue, with no surrounding whitespace. */
  ghost predicate IsLineCodec(write: Issue -> string, parseLine: LineParser) {
    forall x: Issue ::
      && parseLine(write(x)) == Some(x)
      && write(x) != []
      && '\n' !in write(x)
      && !IsJsWhitespace(write(x)[0])
      && !IsJsWhitespace(write(x)[|write(x)| - 1])
  }

  /** Round trip: writing issues one per line and parsing the file gives the
      same issues back, in the same order. */
  lemma JsonlRoundTrip(issues: seq<Issue>, write: Issue -> string, parseLine: LineParser)
    requires IsLineCodec(write, parseLine)
    requires issues != []
    ensures ParseJsonlText(Join(WriteLines(issues, write), '\n'), parseLine) == issues
  {
    var lines := WriteLines(issues, write);
    var text := Join(lines, '\n');
    forall k | 0 <= k < |lines|
      ensures lines[k] != [] && '\n' !in lines[k]
      ensures !IsJsWhitespace(lines[k][0]) && !IsJsWhitespace(lines[k][|lines[k]| - 1])
    {
      assert lines[k] == write(issues[k]);
    }
    LinesOfJoin(lines);
    NonBlankAllKept(lines);
    assert NonBlankLines(text) == lines;
    forall k | 0 <= k < |lines| ensures parseLine(lines[k]) == Some(issues[k]) {
      assert lines[k] == write(issues[k]);
    }
    ParseLinesAllValid(lines, parseLine);
  }

  /** Non-empty lines free of line breaks, with no whitespace at either end of
      the text, are the lines of the text they join into. */
  lemma LinesOfJoin(lines: seq<string>)
    requires lines != []
    requires forall k :: 0 <= k < |lines| ==> lines[k] != [] && '\n' !in lines[k]
    requires !IsJsWhitespace(lines[0][0])
    requires !IsJsWhitespace(lines[|lines| - 1][|lines[|lines| - 1]| - 1])
    ensures Lines(Join(lines, '\n')) == lines
  {
    var text := Join(lines, '\n');
    JoinEnds(lines, '\n');
    assert TrimStart(text) == text;
    assert TrimEnd(text) == text;
    SplitJoin(lines, '\n');
  }

  /** Lines that do not start with whitespace are all kept by the blank-line filter. */
  lemma NonBlankAllKept(lines: seq<string>)
    requires forall k :: 0 <= k < |lines| ==> lines[k] != [] && !IsJsWhitespace(lines[k][0])
    ensures Filter(lines, IsNonBlank()) == lines
  {
    forall l | l in lines ensures IsNonBlank()(l) {
      TrimEmptyIffBlank(l);
    }
    FilterAllKept(lines, IsNonBlank());
  }

  // ---------------------------------------------------------------------------
  // Discovery of `.beads` marker directories
  // ---------------------------------------------------------------------------

  /** A path as its components; `path.join(dir, name)` appends `name`. */
  type Path = seq<string>

  /** A directory entry as `readdirSync(dir, { withFileTypes: true })` reports
      it: anything that is not a directory (files, symbolic links) is `NotDirectory`. */
  datatype Node = NotDirectory | Directory(listing: Listing)

  /** What reading a directory gives: an error, or its entries in readdir order. */
  datatype Listing = ReadError | Entries(entries: seq<DirEntry>)

  datatype DirEntry = DirEntry(name: string, node: Node)

  const BeadsDirName := ".beads"
  const DefaultMaxDepth := 5

  /** `node_modules` and hidden directories other than `.beads` are not entered. */
  predicate IsSkipped(name: string) {
    name == "node_modules" || (StartsWith(name, ".") && name != BeadsDirName)
  }

  /** A directory the scan descends into. */
  predicate IsDescended(name: string) {
    !IsSkipped(name) && name != BeadsDirName
  }

  /** The `.beads` paths `scan(dir, depth)` records, in depth-first readdir order,
      for the listing that reading `dir` gives. */
  function Found(dir: Path, listing: Listing, depth: int, maxDepth: int): seq<Path>
    decreases listing, 2
  {
    if depth > maxDepth then []
    else match listing
      case ReadError => []
      case Entries(es) => FoundUpTo(dir, listing, |es|, depth, maxDepth)
  }

  /** What the first `n` entries of a listing contribute. */
  function FoundUpTo(dir: Path, listing: Listing, n: nat, depth: int, maxDepth: int): seq<Path>
    requires listing.Entries? && n <= |listing.entries|
    decreases listing, 1, n
  {
    if n == 0 then []
    else FoundUpTo(dir, listing, n - 1, depth, maxDepth) + FoundAt(dir, listing, n - 1, depth, maxDepth)
  }

  /** What entry `i` of a listing contributes. */
  function FoundAt(dir: Path, listing: Listing, i: nat, depth: int, maxDepth: int): seq<Path>
    requires listing.Entries? && i < |listing.entries|
    decreases listing, 0, i
  {
    var e := listing.entries[i];
    match e.node
    case NotDirectory => []
    case Directory(sub) =>
      if IsSkipped(e.name) then []
      else if e.name == BeadsDirName then [dir + [e.name]]
      else Found(dir + [e.name], sub, depth + 1, maxDepth)
  }

  /** The state of one `findBeadsDirectories` call: the `beadsDirs` array its
      inner `scan` closure pushes into, and the depth limit it closes over. */
  class BeadsScan {
    const maxDepth: int
    var beadsDirs: seq<Path>

    constructor (maxDepth: int)
      ensures this.maxDepth == maxDepth && beadsDirs == []
    {
      this.maxDepth := maxDepth;
      beadsDirs := [];
    }

    /** `scan(dir, depth)`, where `listing` is what `readdirSync(dir)` gives. */
    method Scan(dir: Path, listing: Listing, depth: int)
      modifies this
      ensures beadsDirs == old(beadsDirs) + Found(dir, listing, depth, maxDepth)
      decreases listing
    {
      if depth > maxDepth {
        return;
      }
      match listing {
        case ReadError =>
          return;
        case Entries(entries) =>
          for i := 0 to |entries|
            invariant beadsDirs == old(beadsDirs) + FoundUpTo(dir, listing, i, depth, maxDepth)
          {
            var entry := entries[i];
            if !entry.node.Directory? {
              continue;
            }
            var fullPath := dir + [entry.name];
            if entry.name == "node_modules" || (StartsWith(entry.name, ".") && entry.name != BeadsDirName) {
              continue;
            }
            if entry.name == BeadsDirName {
              beadsDirs := beadsDirs + [fullPath];
              continue;
            }
            Scan(fullPath, entry.node.listing, depth + 1);
          }
      }
    }
  }

  /** `findBeadsDirectories(rootPath, maxDepth)`, where `tree` is what reading
      the root gives. */
  method FindBeadsDirectories(rootPath: Path, tree: Listing, maxDepth: int) returns (beadsDirs: seq<Path>)
    ensures beadsDirs == Found(rootPath, tree, 0, maxDepth)
  {
    var scan := new BeadsScan(maxDepth);
    scan.Scan(rootPath, tree, 0);
    beadsDirs := scan.beadsDirs;
  }

  /** `rel` leads, below a directory read at `depth`, through directories the
      scan descends into, each read at a depth of at most `maxDepth`, to a
      `.beads` directory. */
  ghost predicate BeadsAt(listing: Listing, rel: seq<string>, depth: int, maxDepth: int)
    decreases listing
  {
    && depth <= maxDepth
    && listing.Entries?
    && |rel| >= 1
    && exists i :: 0 <= i < |listing.entries| && BeadsThrough(listing, i, rel, depth, maxDepth)
  }

  ghost predicate BeadsThrough(listing: Listing, i: int, rel: seq<string>, depth: int, maxDepth: int)
    requires listing.Entries? && 0 <= i < |listing.entries| && |rel| >= 1
    decreases listing, 0
  {
    var e := listing.entries[i];
    && e.name == rel[0]
    && e.node.Directory?
    && if |rel| == 1 then rel[0] == BeadsDirName
       else IsDescended(rel[0]) && BeadsAt(e.node.listing, rel[1..], depth + 1, maxDepth)
  }

  /** The shape of every marker path the scan can reach: it ends in `.beads`,
      passes only through directories the scan enters, and lies at most
      `maxDepth - depth + 1` components below the directory. */
  lemma {:induction false} BeadsAtShape(listing: Listing, rel: seq<string>, depth: int, maxDepth: int)
    requires BeadsAt(listing, rel, depth, maxDepth)
    ensures rel[|rel| - 1] == BeadsDirName
    ensures |rel| <= maxDepth - depth + 1
    ensures forall k :: 0 <= k < |rel| - 1 ==> IsDescended(rel[k])
    decreases listing
  {
    var i :| 0 <= i < |listing.entries| && BeadsThrough(listing, i, rel, depth, maxDepth);
    if |rel| > 1 {
      var sub := listing.entries[i].node.listing;
      BeadsAtShape(sub, rel[1..], depth + 1, maxDepth);
      forall k | 0 <= k < |rel| - 1 ensures IsDescended(rel[k]) {
        if k > 0 {
          assert rel[k] == rel[1..][k - 1];
        }
      }
    }
  }

  /** Soundness: every recorded path is `dir` followed by a route to a `.beads`
      directory within the depth bound. */
  lemma {:induction false} FoundSound(dir: Path, listing: Listing, depth: int, maxDepth: int)
    ensures forall p :: p in Found(dir, listing, depth, maxDepth) ==>
              |p| > |dir| && p[..|dir|] == dir && BeadsAt(listing, p[|dir|..], depth, maxDepth)
    decreases listing, 2
  {
    if depth <= maxDepth && listing.Entries? {
      FoundUpToSound(dir, listing, |listing.entries|, depth, maxDepth);
    }
  }

  lemma {:induction false} FoundUpToSound(dir: Path, listing: Listing, n: nat, depth: int, maxDepth: int)
    requires listing.Entries? && n <= |listing.entries| && depth <= maxDepth
    ensures forall p :: p in FoundUpTo(dir, listing, n, depth, maxDepth) ==>
              |p| > |dir| && p[..|dir|] == dir && BeadsAt(listing, p[|dir|..], depth, maxDepth)
    decreases listing, 1, n
  {
    if n > 0 {
      var before, at := FoundUpTo(dir, listing, n - 1, depth, maxDepth), FoundAt(dir, listing, n - 1, depth, maxDepth);
      FoundUpToSound(dir, listing, n - 1, depth, maxDepth);
      FoundAtSound(dir, listing, n - 1, depth, maxDepth);
      assert FoundUpTo(dir, listing, n, depth, maxDepth) == before + at;
      forall p | p in before + at
        ensures |p| > |dir| && p[..|dir|] == dir && BeadsAt(listing, p[|dir|..], depth, maxDepth)
      {
        if p !in before {
          assert p in at;
        }
      }
    }
  }

  lemma {:induction false} FoundAtSound(dir: Path, listing: Listing, i: nat, depth: int, maxDepth: int)
    requires listing.Entries? && i < |listing.entries| && depth <= maxDepth
    ensures forall p :: p in FoundAt(dir, listing, i, depth, maxDepth) ==>
              |p| > |dir| && p[..|dir|] == dir && BeadsAt(listing, p[|dir|..], depth, maxDepth)
    decreases listing, 0, i
  {
    var e := listing.entries[i];
    if e.node.Directory? && !IsSkipped(e.name) {
      if e.name == BeadsDirName {
        var p := dir + [e.name];
        assert p[..|dir|] == dir && p[|dir|..] == [e.name];
        assert BeadsThrough(listing, i, p[|dir|..], depth, maxDepth);
      } else {
        var sub := e.node.listing;
        var child := dir + [e.name];
        FoundSound(child, sub, depth + 1, maxDepth);
        forall p | p in Found(child, sub, depth + 1, maxDepth)
          ensures |p| > |dir| && p[..|dir|] == dir && BeadsAt(listing, p[|dir|..], depth, maxDepth)
        {
          var rel := p[|dir|..];
          assert p[..|child|] == child;
          assert p[..|dir|] == child[..|dir|] == dir;
          assert p[|dir|] == p[..|child|][|dir|] == child[|dir|] == e.name;
          assert rel[0] == e.name;
          assert rel[1..] == p[|child|..];
          assert BeadsThrough(listing, i, rel, depth, maxDepth);
        }
      }
    }
  }

  /** Every directory of the tree can be read. */
  ghost predicate Readable(listing: Listing)
    decreases listing
  {
    && listing.Entries?
    && forall i :: 0 <= i < |listing.entries| ==> ReadableEntry(listing, i)
  }

  ghost predicate ReadableEntry(listing: Listing, i: int)
    requires listing.Entries? && 0 <= i < |listing.entries|
    decreases listing, 0
  {
    listing.entries[i].node.Directory? ==> Readable(listing.entries[i].node.listing)
  }

  /** Completeness: with no read error, every `.beads` directory reachable
      through directories the scan enters, within the depth bound, is recorded. */
  lemma {:induction false} FoundComplete(dir: Path, listing: Listing, rel: seq<string>, depth: int, maxDepth: int)
    requires Readable(listing)
    requires BeadsAt(listing, rel, depth, maxDepth)
    ensures dir + rel in Found(dir, listing, depth, maxDepth)
    decreases listing
  {
    var i :| 0 <= i < |listing.entries| && BeadsThrough(listing, i, rel, depth, maxDepth);
    assert ReadableEntry(listing, i);
    var e := listing.entries[i];
    if |rel| == 1 {
      assert dir + rel == dir + [e.name];
    } else {
      var child := dir + [e.name];
      FoundComplete(child, e.node.listing, rel[1..], depth + 1, maxDepth);
      assert child + rel[1..] == dir + rel by {
        assert rel == [rel[0]] + rel[1..];
      }
    }
    assert dir + rel in FoundAt(dir, listing, i, depth, maxDepth);
    FoundUpToContains(dir, listing, |listing.entries|, i, depth, maxDepth);
  }

  lemma {:induction false} FoundUpToContains(dir: Path, listing: Listing, n: nat, i: nat, depth: int, maxDepth: int)
    requires listing.Entries? && i < n <= |listing.entries|
    ensures forall p :: p in FoundAt(dir, listing, i, depth, maxDepth) ==> p in FoundUpTo(dir, listing, n, depth, maxDepth)
    decreases n
  {
    if i < n - 1 {
      FoundUpToContains(dir, listing, n - 1, i, depth, maxDepth);
    }
  }

  /** What an entry contributes depends on that entry alone. */
  lemma FoundAtLocal(dir: Path, a: Listing, i: nat, b: Listing, j: nat, depth: int, maxDepth: int)
    requires a.Entries? && i < |a.entries| && b.Entries? && j < |b.entries|
    requires a.entries[i] == b.entries[j]
    ensures FoundAt(dir, a, i, depth, maxDepth) == FoundAt(dir, b, j, depth, maxDepth)
  {
  }

  lemma {:induction false} FoundUpToPrefix(dir: Path, es: seq<DirEntry>, more: seq<DirEntry>, n: nat, depth: int, maxDepth: int)
    requires n <= |es|
    ensures FoundUpTo(dir, Entries(es + more), n, depth, maxDepth) == FoundUpTo(dir, Entries(es), n, depth, maxDepth)
    decreases n
  {
    if n > 0 {
      FoundUpToPrefix(dir, es, more, n - 1, depth, maxDepth);
      FoundAtLocal(dir, Entries(es + more), n - 1, Entries(es), n - 1, depth, maxDepth);
    }
  }

  lemma {:induction false} FoundUpToSuffix(dir: Path, es: seq<DirEntry>, more: seq<DirEntry>, n: nat, depth: int, maxDepth: int)
    requires n <= |more|
    ensures FoundUpTo(dir, Entries(es + more), |es| + n, depth, maxDepth)
            == FoundUpTo(dir, Entries(es), |es|, depth, maxDepth) + FoundUpTo(dir, Entries(more), n, depth, maxDepth)
    decreases n
  {
    if n == 0 {
      FoundUpToPrefix(dir, es, more, |es|, depth, maxDepth);
    } else {
      FoundUpToSuffix(dir, es, more, n - 1, depth, maxDepth);
      FoundAtLocal(dir, Entries(es + more), |es| + n - 1, Entries(more), n - 1, depth, maxDepth);
    }
  }

  /** Siblings are scanned independently: the entries of a directory
      contribute, in order, what each part would contribute on its own. */
  lemma FoundSplit(dir: Path, es: seq<DirEntry>, more: seq<DirEntry>, depth: int, maxDepth: int)
    ensures Found(dir, Entries(es + more), depth, maxDepth)
            == Found(dir, Entries(es), depth, maxDepth) + Found(dir, Entries(more), depth, maxDepth)
  {
    if depth <= maxDepth {
      FoundUpToSuffix(dir, es, more, |more|, depth, maxDepth);
    }
  }

  /** A read error in one subdirectory drops that subtree only: the entries
      before and after it are still scanned and recorded. */
  lemma UnreadableSubtreeDropsOnlyItself(dir: Path, before: seq<DirEntry>, name: string, after: seq<DirEntry>, depth: int, maxDepth: int)
    requires name != BeadsDirName
    ensures Found(dir, Entries(before + [DirEntry(name, Directory(ReadError))] + after), depth, maxDepth)
            == Found(dir, Entries(before), depth, maxDepth) + Found(dir, Entries(after), depth, maxDepth)
  {
    var bad := [DirEntry(name, Directory(ReadError))];
    FoundSplit(dir, before + bad, after, depth, maxDepth);
    FoundSplit(dir, before, bad, depth, maxDepth);
    assert Found(dir + [name], ReadError, depth + 1, maxDepth) == [];
    assert FoundAt(dir, Entries(bad), 0, depth, maxDepth) == [];
    assert FoundUpTo(dir, Entries(bad), 1, depth, maxDepth) == [];
  }

  // ---------------------------------------------------------------------------
  // Repository naming and loading
  // ---------------------------------------------------------------------------

  /** `path.basename` of a path given by its components. */
  function Basename(p: Path): string {
    if p == [] then "" else p[|p| - 1]
  }

  /** `path.dirname` of a path given by its components. */
  function Dirname(p: Path): Path {
    if p == [] then [] else p[..|p| - 1]
  }

  /** A file naming the prefix: it ends in `.db` and is not `beads.db`. */
  function IsPrefixDb(): string -> bool {
    (f: string) => EndsWith(f, ".db") && f != "beads.db"
  }

  datatype RepoInfo = RepoInfo(name: string, prefix: string)

  /** `getRepoInfo(beadsPath)`, where `files` is what `readdirSync(beadsPath)`
      gives (`None` where it throws). The name is the marker's parent
      directory; the prefix is the first prefix database with its `.db`
      suffix removed (`path.basename(f, ".db")`), else the name. */
  function GetRepoInfo(beadsPath: Path, files: Option<seq<string>>): (info: RepoInfo)
    ensures info.name == Basename(Dirname(beadsPath))
    ensures files.Some? && (exists k :: 0 <= k < |files.value| && IsPrefixDb()(files.value[k])) ==>
              exists k :: 0 <= k < |files.value| && IsPrefixDb()(files.value[k])
                && (forall j :: 0 <= j < k ==> !IsPrefixDb()(files.value[j]))
                && info.prefix + ".db" == files.value[k]
    ensures files.None? || (forall k :: 0 <= k < |files.value| ==> !IsPrefixDb()(files.value[k])) ==>
              info.prefix == info.name
  {
    var name := Basename(Dirname(beadsPath));
    match files
    case None => RepoInfo(name, name)
    case Some(fs) =>
      match FirstIndex(fs, IsPrefixDb())
      case None => RepoInfo(name, name)
      case Some(k) =>
        var f := fs[k];
        assert f[..|f| - 3] + ".db" == f;
        RepoInfo(name, f[..|f| - 3])
  }

  /** `loadRepository(beadsPath)`: nothing when `issues.jsonl` is absent,
      otherwise the repository rooted at the marker's parent. */
  function LoadRepository(beadsPath: Path, issuesFile: FileState, files: Option<seq<string>>,
                          parseLine: LineParser): (r: Option<Repository>)
    ensures r.None? <==> issuesFile.Missing?
    ensures r.Some? ==> r.value.path == LocalPath(Dirname(beadsPath)) && r.value.dbPath == LocalPath(beadsPath)
    ensures r.Some? ==> r.value.issues == ParseJsonlFile(issuesFile, parseLine)
    ensures r.Some? ==> RepoInfo(r.value.name, r.value.prefix) == GetRepoInfo(beadsPath, files)
  {
    if issuesFile.Missing? then None
    else
      var issues := ParseJsonlFile(issuesFile, parseLine);
      var info := GetRepoInfo(beadsPath, files);
      Some(Repository(info.name, LocalPath(Dirname(beadsPath)), LocalPath(beadsPath), issues, info.prefix))
  }

  /** The filesystem as the loader sees it: what reading each scan root gives,
      the state of `<marker>/issues.jsonl` for each marker, and the listing of
      each marker directory. */
  datatype Disk = Disk(
    tree: Path -> Listing,
    issuesFile: Path -> FileState,
    listDir: Path -> Option<seq<string>>)

  /** The markers found under the roots, root by root. */
  function DiscoverAll(rootPaths: seq<Path>, disk: Disk): seq<Path> {
    if rootPaths == [] then []
    else
      var root := rootPaths[|rootPaths| - 1];
      DiscoverAll(rootPaths[..|rootPaths| - 1], disk) + Found(root, disk.tree(root), 0, DefaultMaxDepth)
  }

  /** The repositories loaded from a list of markers, in order, skipping the
      markers without an issue file. */
  function LoadAll(beadsDirs: seq<Path>, disk: Disk, parseLine: LineParser): (r: seq<Repository>)
    ensures |r| <= |beadsDirs|
  {
    if beadsDirs == [] then []
    else
      var init := beadsDirs[..|beadsDirs| - 1];
      var d := beadsDirs[|beadsDirs| - 1];
      var rest := LoadAll(init, disk, parseLine);
      match LoadRepository(d, disk.issuesFile(d), disk.listDir(d), parseLine)
      case None => rest
      case Some(repo) => rest + [repo]
  }

  /** Every loaded repository is that of one of the markers, and of one whose
      issue file exists. */
  lemma {:induction false} LoadAllSound(beadsDirs: seq<Path>, disk: Disk, parseLine: LineParser, k: nat)
    requires k < |LoadAll(beadsDirs, disk, parseLine)|
    ensures exists j :: 0 <= j < |beadsDirs|
              && LoadRepository(beadsDirs[j], disk.issuesFile(beadsDirs[j]), disk.listDir(beadsDirs[j]), parseLine)
                 == Some(LoadAll(beadsDirs, disk, parseLine)[k])
    decreases |beadsDirs|
  {
    var n := |beadsDirs| - 1;
    var init, d := beadsDirs[..n], beadsDirs[n];
    var rest := LoadAll(init, disk, parseLine);
    LoadAllStep(init, d, disk, parseLine);
    assert init + [d] == beadsDirs;
    if k < |rest| {
      LoadAllSound(init, disk, parseLine, k);
      var j :| 0 <= j < |init|
                && LoadRepository(init[j], disk.issuesFile(init[j]), disk.listDir(init[j]), parseLine) == Some(rest[k]);
      assert beadsDirs[j] == init[j];
    } else {
      var repo := LoadRepository(d, disk.issuesFile(d), disk.listDir(d), parseLine);
      assert repo == Some(LoadAll(beadsDirs, disk, parseLine)[k]);
      assert beadsDirs[n] == d;
    }
  }

  /** Discovery is root by root: the markers of two lists of roots are those
      of each list, in order. */
  lemma {:induction false} DiscoverAllAppend(a: seq<Path>, b: seq<Path>, disk: Disk)
    ensures DiscoverAll(a + b, disk) == DiscoverAll(a, disk) + DiscoverAll(b, disk)
    decreases |b|
  {
    if b == [] {
      assert a + b == a;
    } else {
      var b', root := b[..|b| - 1], b[|b| - 1];
      assert (a + b)[..|a + b| - 1] == a + b';
      DiscoverAllAppend(a, b', disk);
    }
  }

  /** Loading is marker by marker: a marker without an issue file, or with a
      bad one, does not affect the others. */
  lemma {:induction false} LoadAllAppend(a: seq<Path>, b: seq<Path>, disk: Disk, parseLine: LineParser)
    ensures LoadAll(a + b, disk, parseLine) == LoadAll(a, disk, parseLine) + LoadAll(b, disk, parseLine)
    decreases |b|
  {
    if b == [] {
      assert a + b == a;
    } else {
      var b', d := b[..|b| - 1], b[|b| - 1];
      assert a + b == (a + b') + [d];
      assert b == b' + [d];
      LoadAllAppend(a, b', disk, parseLine);
      LoadAllStep(a + b', d, disk, parseLine);
      LoadAllStep(b', d, disk, parseLine);
    }
  }

  lemma LoadAllStep(dirs: seq<Path>, d: Path, disk: Disk, parseLine: LineParser)
    ensures var repo := LoadRepository(d, disk.issuesFile(d), disk.listDir(d), parseLine);
            LoadAll(dirs + [d], disk, parseLine)
              == if repo.Some? then LoadAll(dirs, disk, parseLine) + [repo.value] else LoadAll(dirs, disk, parseLine)
  {
    assert (dirs + [d])[..|dirs|] == dirs;
  }

  lemma AllIssuesStep(repos: seq<Repository>, r: Repository)
    ensures AllIssues(repos + [r]) == AllIssues(repos) + r.issues
  {
    assert (repos + [r])[..|repos|] == repos;
  }

  lemma SliceSnoc<T>(a: seq<T>, b: seq<T>, j: nat)
    requires j < |b|
    ensures a + b[..j + 1] == (a + b[..j]) + [b[j]]
  {
    assert b[..j + 1] == b[..j] + [b[j]];
  }

  lemma DiscoverAllStep(rootPaths: seq<Path>, i: nat, disk: Disk)
    requires i < |rootPaths|
    ensures DiscoverAll(rootPaths[..i + 1], disk)
            == DiscoverAll(rootPaths[..i], disk) + Found(rootPaths[i], disk.tree(rootPaths[i]), 0, DefaultMaxDepth)
  {
    assert rootPaths[..i + 1][..i] == rootPaths[..i];
  }

  lemma TallyFields(repos: seq<Repository>, allIssues: seq<Issue>)
    requires allIssues == AllIssues(repos)
    ensures Tally(repos) == MultiRepoData(repos, allIssues, |Filter(allIssues, StatusIs(Open))|,
                                          |Filter(allIssues, StatusIs(InProgress))|,
                                          |Filter(allIssues, StatusIs(Closed))|)
  {
  }

  /** `loadMultiRepoData(rootPaths)`. */
  method LoadMultiRepoData(rootPaths: seq<Path>, disk: Disk, parseLine: LineParser) returns (data: MultiRepoData)
    ensures data == Tally(LoadAll(DiscoverAll(rootPaths, disk), disk, parseLine))
  {
    var repositories: seq<Repository> := [];
    var allIssues: seq<Issue> := [];
    for i := 0 to |rootPaths|
      invariant repositories == LoadAll(DiscoverAll(rootPaths[..i], disk), disk, parseLine)
      invariant allIssues == AllIssues(repositories)
    {
      var rootPath := rootPaths[i];
      var beadsDirs := FindBeadsDirectories(rootPath, disk.tree(rootPath), DefaultMaxDepth);
      ghost var before := DiscoverAll(rootPaths[..i], disk);
      assert before + beadsDirs[..0] == before;
      for j := 0 to |beadsDirs|
        invariant repositories == LoadAll(before + beadsDirs[..j], disk, parseLine)
        invariant allIssues == AllIssues(repositories)
      {
        var beadsDir := beadsDirs[j];
        var repo := LoadRepository(beadsDir, disk.issuesFile(beadsDir), disk.listDir(beadsDir), parseLine);
        LoadAllStep(before + beadsDirs[..j], beadsDir, disk, parseLine);
        if repo.Some? {
          AllIssuesStep(repositories, repo.value);
          repositories := repositories + [repo.value];
          allIssues := allIssues + repo.value.issues;
        }
        SliceSnoc(before, beadsDirs, j);
      }
      assert beadsDirs[..|beadsDirs|] == beadsDirs;
      DiscoverAllStep(rootPaths, i, disk);
    }
    assert rootPaths[..|rootPaths|] == rootPaths;
    TallyFields(repositories, allIssues);
    var totalOpen := |Filter(allIssues, StatusIs(Open))|;
    var totalInProgress := |Filter(allIssues, StatusIs(InProgress))|;
    var totalClosed := |Filter(allIssues, StatusIs(Closed))|;
    data := MultiRepoData(repositories, allIssues, totalOpen, totalInProgress, totalClosed);
  }

  // ---------------------------------------------------------------------------
  // Dependency graph
  // ---------------------------------------------------------------------------

  /** `repoMap.get(id) || "unknown"`: an absent or empty name reads as "unknown". */
  function RepoLabel(repoMap: map<string, string>, id: string): (shown: string)
    ensures shown != ""
    ensures id in repoMap && repoMap[id] != "" ==> shown == repoMap[id]
    ensures !(id in repoMap && repoMap[id] != "") ==> shown == "unknown"
  {
    if id in repoMap && repoMap[id] != "" then repoMap[id] else "unknown"
  }

  function NodeOf(issue: Issue, repoMap: map<string, string>): GraphNode {
    GraphNode(issue.id, issue.title, issue.status, issue.priority, issue.issueType,
              RepoLabel(repoMap, issue.id), issue.assignee)
  }

  /** The edge of one dependency, from the prerequisite to the dependent. */
  function EdgeOf(d: Dependency): GraphEdge {
    GraphEdge(d.issueId + "-" + d.dependsOnId + "-" + DependencyTypeName(d.depType),
              d.dependsOnId, d.issueId, d.depType)
  }

  /** The dependency entries of all issues, issue by issue, an absent list
      contributing none. */
  function AllDeps(issues: seq<Issue>): seq<Dependency> {
    if issues == [] then [] else AllDeps(issues[..|issues| - 1]) + Deps(issues[|issues| - 1])
  }

  /** The edges of a run of dependency entries, one per entry, in order. */
  function EdgesOf(ds: seq<Dependency>): (r: seq<GraphEdge>)
    ensures |r| == |ds|
  {
    seq(|ds|, j requires 0 <= j < |ds| => EdgeOf(ds[j]))
  }

  /** The edges of all issues: issue order, then dependency order. */
  function Edges(issues: seq<Issue>): seq<GraphEdge> {
    EdgesOf(AllDeps(issues))
  }

  /** `issues.reduce((sum, i) => sum + (i.dependencies?.length || 0), 0)`. */
  function DepTotal(issues: seq<Issue>): nat {
    if issues == [] then 0 else DepTotal(issues[..|issues| - 1]) + |Deps(issues[|issues| - 1])|
  }

  lemma {:induction false} AllDepsAppend(a: seq<Issue>, b: seq<Issue>)
    ensures AllDeps(a + b) == AllDeps(a) + AllDeps(b)
    decreases |b|
  {
    if b == [] {
      assert a + b == a;
    } else {
      assert (a + b)[..|a + b| - 1] == a + b[..|b| - 1];
      AllDepsAppend(a, b[..|b| - 1]);
    }
  }

  lemma EdgesOfAppend(x: seq<Dependency>, y: seq<Dependency>)
    ensures EdgesOf(x + y) == EdgesOf(x) + EdgesOf(y)
  {
  }

  /** The edges of two issue lists are those of each, in order. */
  lemma EdgesAppend(a: seq<Issue>, b: seq<Issue>)
    ensures Edges(a + b) == Edges(a) + Edges(b)
  {
    AllDepsAppend(a, b);
    EdgesOfAppend(AllDeps(a), AllDeps(b));
  }

  /** The dependency sum counts the entries the edges are made of: there is
      one edge per dependency entry. */
  lemma {:induction false} EdgeCount(issues: seq<Issue>)
    ensures |Edges(issues)| == DepTotal(issues)
    decreases |issues|
  {
    if issues != [] {
      EdgeCount(issues[..|issues| - 1]);
    }
  }

  /** Dependency `k` of issue `i` becomes the edge after those of the issues
      before `i` and the first `k` dependencies of `i`; it points from the
      issue depended upon to the dependent issue and has id
      `issue_id-depends_on_id-type`. */
  lemma EdgeAt(issues: seq<Issue>, i: nat, k: nat)
    requires i < |issues| && k < |Deps(issues[i])|
    ensures DepTotal(issues[..i]) + k < |Edges(issues)|
    ensures var e := Edges(issues)[DepTotal(issues[..i]) + k];
            var d := Deps(issues[i])[k];
            && e.source == d.dependsOnId
            && e.target == d.issueId
            && e.edgeType == d.depType
            && e.id == d.issueId + "-" + d.dependsOnId + "-" + DependencyTypeName(d.depType)
  {
    var before := issues[..i];
    AllDepsAt(issues, i, k);
    EdgeCount(before);
    var j := |AllDeps(before)| + k;
    assert DepTotal(before) + k == j;
    assert Edges(issues)[j] == EdgeOf(Deps(issues[i])[k]);
  }

  /** Entry `k` of issue `i` sits in the flattening right after the entries of
      the issues before `i`. */
  lemma AllDepsAt(issues: seq<Issue>, i: nat, k: nat)
    requires i < |issues| && k < |Deps(issues[i])|
    ensures |AllDeps(issues[..i])| + k < |AllDeps(issues)|
    ensures AllDeps(issues)[|AllDeps(issues[..i])| + k] == Deps(issues[i])[k]
  {
    assert issues == issues[..i] + [issues[i]] + issues[i + 1..];
    AllDepsAppend(issues[..i] + [issues[i]], issues[i + 1..]);
    AllDepsAppend(issues[..i], [issues[i]]);
    assert AllDeps([issues[i]]) == Deps(issues[i]) by {
      assert [issues[i]][..0] == [];
    }
  }

  /** Every dependency entry of the flattening belongs to one of the issues. */
  lemma {:induction false} AllDepsMember(issues: seq<Issue>, j: nat)
    requires j < |AllDeps(issues)|
    ensures exists i, k :: 0 <= i < |issues| && 0 <= k < |Deps(issues[i])| && AllDeps(issues)[j] == Deps(issues[i])[k]
    decreases |issues|
  {
    var n := |issues| - 1;
    var init := issues[..n];
    if j < |AllDeps(init)| {
      AllDepsMember(init, j);
      var i, k :| 0 <= i < |init| && 0 <= k < |Deps(init[i])| && AllDeps(init)[j] == Deps(init[i])[k];
      assert init[i] == issues[i];
    } else {
      assert AllDeps(issues)[j] == Deps(issues[n])[j - |AllDeps(init)|];
    }
  }

  /** Every edge comes from a dependency entry of some issue. */
  lemma EdgeOrigin(issues: seq<Issue>, e: GraphEdge)
    requires e in Edges(issues)
    ensures exists i, k :: 0 <= i < |issues| && 0 <= k < |Deps(issues[i])| && e == EdgeOf(Deps(issues[i])[k])
  {
    var j :| 0 <= j < |Edges(issues)| && Edges(issues)[j] == e;
    AllDepsMember(issues, j);
  }

  /** The graph `buildDependencyGraph` returns. */
  function GraphOf(issues: seq<Issue>, repoMap: map<string, string>): (g: DependencyGraph)
    ensures |g.nodes| == |issues| && |g.edges| == DepTotal(issues)
    ensures forall k :: 0 <= k < |issues| ==>
              g.nodes[k].id == issues[k].id && g.nodes[k].repo == RepoLabel(repoMap, issues[k].id)
  {
    EdgeCount(issues);
    DependencyGraph(seq(|issues|, k requires 0 <= k < |issues| => NodeOf(issues[k], repoMap)), Edges(issues))
  }

  /** `buildDependencyGraph(issues, repoMap)`. */
  method BuildDependencyGraph(issues: seq<Issue>, repoMap: map<string, string>) returns (graph: DependencyGraph)
    ensures graph == GraphOf(issues, repoMap)
  {
    var nodes := seq(|issues|, k requires 0 <= k < |issues| => NodeOf(issues[k], repoMap));
    var edges: seq<GraphEdge> := [];
    for i := 0 to |issues|
      invariant edges == Edges(issues[..i])
    {
      var issue := issues[i];
      ghost var before := AllDeps(issues[..i]);
      match issue.dependencies {
        case None =>
        case Some(deps) =>
          for k := 0 to |deps|
            invariant edges == EdgesOf(before + deps[..k])
          {
            var dep := deps[k];
            edges := edges + [GraphEdge(dep.issueId + "-" + dep.dependsOnId + "-" + DependencyTypeName(dep.depType),
                                        dep.dependsOnId, dep.issueId, dep.depType)];
            SliceSnoc(before, deps, k);
            EdgesOfAppend(before + deps[..k], [dep]);
          }
          assert deps[..|deps|] == deps;
      }
      assert issues[..i + 1][..i] == issues[..i];
    }
    assert issues[..|issues|] == issues;
    graph := DependencyGraph(nodes, edges);
  }

  // ---------------------------------------------------------------------------
  // Readiness
  // ---------------------------------------------------------------------------

  /** `new Map(issues.map(i => [i.id, i]))`: a later issue with the same id
      replaces an earlier one. */
  function IdMap(issues: seq<Issue>): (m: map<string, Issue>)
    ensures forall id :: id in m <==> exists j :: 0 <= j < |issues| && issues[j].id == id
    ensures forall id :: id in m ==> m[id] in issues && m[id].id == id
  {
    if issues == [] then map[]
    else
      var init := issues[..|issues| - 1];
      var last := issues[|issues| - 1];
      var m := IdMap(init);
      assert forall j :: 0 <= j < |init| ==> init[j] == issues[j];
      m[last.id := last]
  }

  lemma IdMapStep(issues: seq<Issue>, i: nat)
    requires i < |issues|
    ensures IdMap(issues[..i + 1]) == IdMap(issues[..i])[issues[i].id := issues[i]]
  {
    assert issues[..i + 1][..i] == issues[..i];
  }

  /** With unique ids, the lookup finds each issue itself. */
  lemma {:induction false} IdMapUnique(issues: seq<Issue>, j: nat)
    requires UniqueIds(issues) && j < |issues|
    ensures issues[j].id in IdMap(issues) && IdMap(issues)[issues[j].id] == issues[j]
    decreases |issues|
  {
    var n := |issues| - 1;
    if j < n {
      IdMapUnique(issues[..n], j);
    }
  }

  /** Whether a dependency holds an issue back: it is a `blocks` dependency
      on an issue of the set that is not closed. */
  predicate IsBlockedBy(d: Dependency, issueMap: map<string, Issue>) {
    d.depType == Blocks && d.dependsOnId in issueMap && issueMap[d.dependsOnId].status != Closed
  }

  /** The `getReadyIssues` filter callback: open, and no dependency holds it back. */
  predicate IsReady(issue: Issue, issueMap: map<string, Issue>) {
    issue.status == Open && forall d :: d in Deps(issue) ==> !IsBlockedBy(d, issueMap)
  }

  function ReadyIn(issueMap: map<string, Issue>): Issue -> bool {
    (issue: Issue) => IsReady(issue, issueMap)
  }

  /** `getReadyIssues(issues)`. */
  function ReadyIssues(issues: seq<Issue>): (r: seq<Issue>)
    ensures |r| <= CountStatus(issues, Open)
  {
    // every ready issue is open
    FilterCountMono(issues, ReadyIn(IdMap(issues)), StatusIs(Open));
    Filter(issues, ReadyIn(IdMap(issues)))
  }

  function IsBlocksDep(): Dependency -> bool {
    (d: Dependency) => d.depType == Blocks
  }

  /** The callback of `issues.filter` in `getReadyIssues`, with its early returns. */
  method IsReadyCallback(issue: Issue, issueMap: map<string, Issue>) returns (keep: bool)
    ensures keep == IsReady(issue, issueMap)
  {
    if issue.status != Open {
      return false;
    }
    if issue.dependencies.Some? {
      var blockingDeps := Filter(issue.dependencies.value, IsBlocksDep());
      for k := 0 to |blockingDeps|
        invariant forall j :: 0 <= j < k ==> !IsBlockedBy(blockingDeps[j], issueMap)
      {
        var dep := blockingDeps[k];
        if dep.dependsOnId in issueMap && issueMap[dep.dependsOnId].status != Closed {
          assert dep in blockingDeps;
          assert dep in issue.dependencies.value && dep.depType == Blocks;
          assert IsBlockedBy(dep, issueMap);
          return false;
        }
      }
    }
    return true;
  }

  /** `getReadyIssues(issues)`, step by step. */
  method GetReadyIssues(issues: seq<Issue>) returns (ready: seq<Issue>)
    ensures ready == ReadyIssues(issues)
  {
    var issueMap: map<string, Issue> := map[];
    for i := 0 to |issues|
      invariant issueMap == IdMap(issues[..i])
    {
      issueMap := issueMap[issues[i].id := issues[i]];
      IdMapStep(issues, i);
    }
    assert issues[..|issues|] == issues;
    ready := [];
    for i := 0 to |issues|
      invariant ready == Filter(issues[..i], ReadyIn(issueMap))
    {
      var keep := IsReadyCallback(issues[i], issueMap);
      if keep {
        ready := ready + [issues[i]];
      }
      FilterStep(issues, i, ReadyIn(issueMap));
    }
  }

  /** With unique ids: an issue is ready exactly when it is open and every
      issue of the set it has a `blocks` dependency on is closed. */
  lemma ReadyIffBlockersClosed(issues: seq<Issue>, x: Issue)
    requires UniqueIds(issues)
    ensures IsReady(x, IdMap(issues)) <==>
              x.status == Open &&
              forall d, j :: d in Deps(x) && d.depType == Blocks && 0 <= j < |issues| && issues[j].id == d.dependsOnId
                ==> issues[j].status == Closed
  {
    forall j | 0 <= j < |issues| {
      IdMapUnique(issues, j);
    }
  }

  /** Dependencies of other types, and `blocks` dependencies on issues outside
      the set, never hold an issue back. */
  lemma NonBlockingDependencyIgnored(x: Issue, d: Dependency, issueMap: map<string, Issue>)
    requires d.depType != Blocks || d.dependsOnId !in issueMap
    ensures IsReady(x.(dependencies := Some(Deps(x) + [d])), issueMap) == IsReady(x, issueMap)
  {
    var x' := x.(dependencies := Some(Deps(x) + [d]));
    assert forall e :: e in Deps(x') <==> e in Deps(x) || e == d;
  }

  /** With unique ids, an issue ready among a set of issues stays ready among
      any part of the set holding it: fewer issues can only block it less. */
  lemma {:induction false} ReadyInSubset(all: seq<Issue>, part: seq<Issue>, x: Issue)
    requires UniqueIds(all)
    requires forall y :: y in part ==> y in all
    requires x in part && IsReady(x, IdMap(all))
    ensures IsReady(x, IdMap(part))
  {
    forall d | d in Deps(x) ensures !IsBlockedBy(d, IdMap(part)) {
      if d.depType == Blocks && d.dependsOnId in IdMap(part) {
        var y := IdMap(part)[d.dependsOnId];
        assert y in all;
        var j :| 0 <= j < |all| && all[j] == y;
        IdMapUnique(all, j);
        assert !IsBlockedBy(d, IdMap(all));
      }
    }
  }

  /** With unique ids, the ready issues are all ready among themselves: the
      filter is idempotent. */
  lemma ReadyIdempotent(issues: seq<Issue>)
    requires UniqueIds(issues)
    ensures ReadyIssues(ReadyIssues(issues)) == ReadyIssues(issues)
  {
    var r := ReadyIssues(issues);
    var m := IdMap(issues);
    var mr := IdMap(r);
    forall x | x in r ensures IsReady(x, mr) {
      forall d | d in Deps(x) ensures !IsBlockedBy(d, mr) {
        if d.depType == Blocks && d.dependsOnId in mr {
          var y := mr[d.dependsOnId];
          assert y in r;
          var j :| 0 <= j < |issues| && issues[j] == y;
          IdMapUnique(issues, j);
          assert !IsBlockedBy(d, m);
        }
      }
    }
    FilterAllKept(r, ReadyIn(mr));
  }

  // ---------------------------------------------------------------------------
  // Metrics
  // ---------------------------------------------------------------------------

  datatype StatusCounts = StatusCounts(open: nat, inProgress: nat, closed: nat)

  datatype PriorityCounts = PriorityCounts(p0: nat, p1: nat, p2: nat, p3: nat, p4: nat)

  datatype TypeCounts = TypeCounts(task: nat, feature: nat, bug: nat, epic: nat)

  /** The result of `calculateMetrics`; `avgDepsPerIssue` is the quotient
      `dependencySum / divisor`. */
  datatype Metrics = Metrics(
    total: nat,
    byStatus: StatusCounts,
    byPriority: PriorityCounts,
    byType: TypeCounts,
    dependencySum: nat,
    divisor: nat,
    readyCount: nat)

  function PriorityIs(p: int): Issue -> bool {
    (i: Issue) => i.priority == p
  }

  function TypeIs(t: IssueType): Issue -> bool {
    (i: Issue) => i.issueType == t
  }

  function PriorityInRange(): Issue -> bool {
    (i: Issue) => 0 <= i.priority <= 4
  }

  function CountPriority(issues: seq<Issue>, p: int): nat {
    |Filter(issues, PriorityIs(p))|
  }

  function CountType(issues: seq<Issue>, t: IssueType): nat {
    |Filter(issues, TypeIs(t))|
  }

  /** The five priority buckets hold exactly the issues whose priority is 0 to 4. */
  lemma {:induction false} PriorityBucketsCount(issues: seq<Issue>)
    ensures CountPriority(issues, 0) + CountPriority(issues, 1) + CountPriority(issues, 2)
            + CountPriority(issues, 3) + CountPriority(issues, 4) == |Filter(issues, PriorityInRange())|
    decreases |issues|
  {
    if issues != [] {
      PriorityBucketsCount(issues[..|issues| - 1]);
    }
  }

  /** Issue type is a closed enumeration, so the type buckets cover every issue. */
  lemma {:induction false} TypeBucketsCover(issues: seq<Issue>)
    ensures CountType(issues, Task) + CountType(issues, Feature) + CountType(issues, Bug)
            + CountType(issues, Epic) == |issues|
    decreases |issues|
  {
    if issues != [] {
      TypeBucketsCover(issues[..|issues| - 1]);
    }
  }

  /** `calculateMetrics(issues)`. */
  function CalculateMetrics(issues: seq<Issue>): (m: Metrics)
    ensures m.total == |issues|
    ensures m.byStatus.open + m.byStatus.inProgress + m.byStatus.closed == m.total
    ensures m.byType.task + m.byType.feature + m.byType.bug + m.byType.epic == m.total
    ensures m.byPriority.p0 + m.byPriority.p1 + m.byPriority.p2 + m.byPriority.p3 + m.byPriority.p4
            == |Filter(issues, PriorityInRange())| <= m.total
    ensures m.dependencySum == |Edges(issues)|
    ensures m.divisor >= 1 && (issues != [] ==> m.divisor == |issues|)
    ensures m.readyCount <= m.byStatus.open
  {
    StatusCountsCover(issues);
    TypeBucketsCover(issues);
    PriorityBucketsCount(issues);
    EdgeCount(issues);
    Metrics(
      |issues|,
      StatusCounts(CountStatus(issues, Open), CountStatus(issues, InProgress), CountStatus(issues, Closed)),
      PriorityCounts(CountPriority(issues, 0), CountPriority(issues, 1), CountPriority(issues, 2),
                     CountPriority(issues, 3), CountPriority(issues, 4)),
      TypeCounts(CountType(issues, Task), CountType(issues, Feature), CountType(issues, Bug), CountType(issues, Epic)),
      DepTotal(issues),
      if |issues| > 1 then |issues| else 1,
      |ReadyIssues(issues)|)
  }
}
