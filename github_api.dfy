/** The GitHub loader: the same aggregate as the filesystem loader, built from
    the repositories listed for a signed-in user. The HTTP client is a
    parameter: the listing request's answer, and a contents endpoint that
    answers each (owner, repository, path) request. Base64 decoding and the
    per-line JSON parse are parameters too. */
module GithubApi {
  import opened Lists
  import opened Strings
  import opened Types
  import opened MultiRepo
  import opened BdParser

  /** The three fields kept of each repository listed for the user. */
  datatype RemoteRepo = RemoteRepo(name: string, fullName: string, htmlUrl: string)

  /** The answer of a contents request: a thrown error (not found, no access,
      transport failure), a directory (the names of its entries) or a file,
      whose base64 `content` may be absent or empty. */
  datatype ContentResponse = RequestFailed | DirectoryItems(names: seq<string>) | FileItem(content: Option<string>)

  /** The contents endpoint, by owner, repository and path. */
  type ContentApi = (string, string, string) -> ContentResponse

  /** The base64-to-UTF-8 decoding of file content. */
  type Decoder = string -> string

  const IssuesPath := ".beads/issues.jsonl"

  /** `fetchUserRepos`: the one page of the listing (`None` when the request
      throws, which the loader turns into an empty list). */
  function FetchUserRepos(listing: Option<seq<RemoteRepo>>): (repos: seq<RemoteRepo>)
    ensures listing.None? ==> repos == []
    ensures listing.Some? ==> repos == listing.value
  {
    match listing
    case None => []
    case Some(page) => page
  }

  /** `repoHasBeads`: the `.beads` path answers without error, whatever it is. */
  function RepoHasBeads(api: ContentApi, owner: string, repo: string): (b: bool)
    ensures b <==> api(owner, repo, BeadsDirName).DirectoryItems? || api(owner, repo, BeadsDirName).FileItem?
  {
    !api(owner, repo, BeadsDirName).RequestFailed?
  }

  /** `fetchBeadsIssues`: the issues of `.beads/issues.jsonl`, parsed as the
      filesystem loader parses a file; nothing when the request fails, the
      path is not a file, or the file has no content. */
  function FetchBeadsIssues(api: ContentApi, owner: string, repo: string, decode: Decoder,
                            parseLine: LineParser): (issues: seq<Issue>)
    ensures var resp := api(owner, repo, IssuesPath);
            !(resp.FileItem? && resp.content.Some? && resp.content.value != "") ==> issues == []
    ensures var resp := api(owner, repo, IssuesPath);
            resp.FileItem? && resp.content.Some? && resp.content.value != "" ==>
              issues == ParseJsonlText(decode(resp.content.value), parseLine)
  {
    match api(owner, repo, IssuesPath)
    case FileItem(Some(content)) =>
      if content == "" then [] else ParseJsonlText(decode(content), parseLine)
    case _ => []
  }

  /** The remote file is read exactly like a local one holding its decoded
      text, as long as decoding the empty content gives empty text. */
  lemma RemoteReadsLikeLocal(api: ContentApi, owner: string, repo: string, decode: Decoder,
                             parseLine: LineParser, content: string)
    requires api(owner, repo, IssuesPath) == FileItem(Some(content))
    requires decode("") == ""
    ensures FetchBeadsIssues(api, owner, repo, decode, parseLine) == ParseJsonlFile(Text(decode(content)), parseLine)
  {
    if content == "" {
      BlankTextHasNoIssues("", parseLine);
    }
  }

  /** `getRepoPrefix`: the first prefix database of the `.beads` directory with
      the first occurrence of `.db` removed, else the repository name. */
  function GetRepoPrefix(api: ContentApi, owner: string, repo: string): (prefix: string)
    ensures var resp := api(owner, repo, BeadsDirName);
            resp.DirectoryItems? && (exists k :: 0 <= k < |resp.names| && IsPrefixDb()(resp.names[k])) ==>
              exists k :: 0 <= k < |resp.names| && IsPrefixDb()(resp.names[k])
                && (forall j :: 0 <= j < k ==> !IsPrefixDb()(resp.names[j]))
                && prefix == ReplaceFirst(resp.names[k], ".db", "")
    ensures var resp := api(owner, repo, BeadsDirName);
            !resp.DirectoryItems? || (forall k :: 0 <= k < |resp.names| ==> !IsPrefixDb()(resp.names[k])) ==>
              prefix == repo
  {
    match api(owner, repo, BeadsDirName)
    case DirectoryItems(names) =>
      (match FirstIndex(names, IsPrefixDb())
       case None => repo
       case Some(k) => ReplaceFirst(names[k], ".db", ""))
    case _ => repo
  }

  /** Removing the first `.db` of a name in which `.db` occurs only as its
      suffix strips the suffix. */
  lemma ReplaceSuffixOnly(f: string)
    requires EndsWith(f, ".db")
    requires forall j :: 0 <= j < |f| - 3 ==> !OccursAt(f, ".db", j)
    ensures ReplaceFirst(f, ".db", "") == f[..|f| - 3]
  {
    assert OccursAt(f, ".db", |f| - 3);
    assert IndexOf(f, ".db") == Some(|f| - 3);
    assert f[|f| - 3 + 3..] == [];
  }

  /** For a clone whose directory is named after the repository, and a
      `.beads` directory whose database names hold `.db` only as their suffix,
      the GitHub loader derives the same prefix as the filesystem loader. */
  lemma PrefixAgreesWithLocal(api: ContentApi, owner: string, repo: string, beadsPath: Path, names: seq<string>)
    requires api(owner, repo, BeadsDirName) == DirectoryItems(names)
    requires Basename(Dirname(beadsPath)) == repo
    requires forall k, j :: 0 <= k < |names| && 0 <= j < |names[k]| - 3 ==> !OccursAt(names[k], ".db", j)
    ensures GetRepoPrefix(api, owner, repo) == GetRepoInfo(beadsPath, Some(names)).prefix
  {
    var first := FirstIndex(names, IsPrefixDb());
    if first.Some? {
      var f := names[first.value];
      ReplaceSuffixOnly(f);
    }
  }

  /** Where `.db` also occurs earlier in the name, the two loaders disagree:
      for `x.dbz.db` the filesystem loader strips the suffix, the GitHub
      loader removes the first occurrence. */
  lemma PrefixDiffersFromLocal(api: ContentApi, owner: string, repo: string, beadsPath: Path)
    requires api(owner, repo, BeadsDirName) == DirectoryItems(["x.dbz.db"])
    ensures GetRepoInfo(beadsPath, Some(["x.dbz.db"])).prefix == "x.dbz"
    ensures GetRepoPrefix(api, owner, repo) == "xz.db"
  {
    var f := "x.dbz.db";
    assert IsPrefixDb()(f) by { assert f[|f| - 3..] == ".db"; }
    assert FirstIndex([f], IsPrefixDb()) == Some(0);
    assert f[..|f| - 3] == "x.dbz";
    FirstDbRemoved();
  }

  /** The first `.db` of `x.dbz.db` is the one after `x`. */
  lemma FirstDbRemoved()
    ensures ReplaceFirst("x.dbz.db", ".db", "") == "xz.db"
  {
    var f := "x.dbz.db";
    assert !OccursAt(f, ".db", 0) by { assert f[0] == 'x'; }
    assert OccursAt(f, ".db", 1) by { assert f[1..4] == ".db"; }
    assert IndexOf(f, ".db") == Some(1);
    assert f[..1] + "" + f[4..] == "xz.db";
  }

  /** `const [owner, repoName] = full_name.split("/")`; a missing second part
      reads as the empty name. */
  function SplitFullName(fullName: string): (string, string) {
    var parts := Split(fullName, '/');
    (parts[0], if |parts| >= 2 then parts[1] else "")
  }

  /** `owner/name` splits back into its owner and name. */
  lemma SplitFullNameRoundTrip(owner: string, name: string)
    requires '/' !in owner && '/' !in name
    ensures SplitFullName(owner + "/" + name) == (owner, name)
  {
    assert Join([name], '/') == name;
    assert Join([owner, name], '/') == owner + "/" + name;
    SplitJoin([owner, name], '/');
  }

  /** The repository record of a listed repository that has a `.beads` directory. */
  function RemoteRepository(r: RemoteRepo, api: ContentApi, decode: Decoder, parseLine: LineParser): Repository {
    var (owner, repoName) := SplitFullName(r.fullName);
    Repository(r.name, Url(r.htmlUrl), Url(r.htmlUrl + "/.beads"),
               FetchBeadsIssues(api, owner, repoName, decode, parseLine),
               GetRepoPrefix(api, owner, repoName))
  }

  predicate Tracked(r: RemoteRepo, api: ContentApi) {
    var (owner, repoName) := SplitFullName(r.fullName);
    RepoHasBeads(api, owner, repoName)
  }

  /** The repositories `loadUserRepos` returns for a listing: the tracked ones,
      in listing order. */
  function UserRepositories(repos: seq<RemoteRepo>, api: ContentApi, decode: Decoder,
                            parseLine: LineParser): (r: seq<Repository>)
    ensures |r| <= |repos|
  {
    if repos == [] then []
    else
      var init := repos[..|repos| - 1];
      var last := repos[|repos| - 1];
      var rest := UserRepositories(init, api, decode, parseLine);
      if Tracked(last, api) then rest + [RemoteRepository(last, api, decode, parseLine)] else rest
  }

  /** Every loaded repository is the record of a tracked repository of the
      listing. */
  lemma {:induction false} UserRepositoriesSound(repos: seq<RemoteRepo>, api: ContentApi, decode: Decoder,
                                                 parseLine: LineParser, k: nat)
    requires k < |UserRepositories(repos, api, decode, parseLine)|
    ensures exists j :: 0 <= j < |repos| && Tracked(repos[j], api)
              && UserRepositories(repos, api, decode, parseLine)[k] == RemoteRepository(repos[j], api, decode, parseLine)
    decreases |repos|
  {
    var n := |repos| - 1;
    var init := repos[..n];
    var rest := UserRepositories(init, api, decode, parseLine);
    UserRepositoriesComplete(repos, n, api, decode, parseLine);
    assert repos[..n + 1] == repos;
    if k < |rest| {
      UserRepositoriesSound(init, api, decode, parseLine, k);
      var j :| 0 <= j < |init| && Tracked(init[j], api) && rest[k] == RemoteRepository(init[j], api, decode, parseLine);
      assert repos[j] == init[j];
    } else {
      assert Tracked(repos[n], api);
    }
  }

  /** Each listed repository contributes on its own: the result for a
      concatenated listing is the concatenation of the results. */
  lemma {:induction false} UserRepositoriesAppend(a: seq<RemoteRepo>, b: seq<RemoteRepo>, api: ContentApi,
                                                  decode: Decoder, parseLine: LineParser)
    ensures UserRepositories(a + b, api, decode, parseLine)
            == UserRepositories(a, api, decode, parseLine) + UserRepositories(b, api, decode, parseLine)
    decreases |b|
  {
    if b == [] {
      assert a + b == a;
    } else {
      assert (a + b)[..|a + b| - 1] == a + b[..|b| - 1];
      UserRepositoriesAppend(a, b[..|b| - 1], api, decode, parseLine);
    }
  }

  /** Every tracked repository of the listing is loaded; the untracked ones
      leave nothing behind. */
  lemma UserRepositoriesComplete(repos: seq<RemoteRepo>, j: nat, api: ContentApi, decode: Decoder,
                                 parseLine: LineParser)
    requires j < |repos|
    ensures var before := UserRepositories(repos[..j], api, decode, parseLine);
            var through := UserRepositories(repos[..j + 1], api, decode, parseLine);
            if Tracked(repos[j], api) then through == before + [RemoteRepository(repos[j], api, decode, parseLine)]
            else through == before
  {
    assert repos[..j + 1][..j] == repos[..j];
  }

  /** `loadUserRepos`, step by step. */
  method LoadUserRepos(listing: Option<seq<RemoteRepo>>, api: ContentApi, decode: Decoder,
                       parseLine: LineParser) returns (repositories: seq<Repository>)
    ensures repositories == UserRepositories(FetchUserRepos(listing), api, decode, parseLine)
  {
    var repos := FetchUserRepos(listing);
    repositories := [];
    for i := 0 to |repos|
      invariant repositories == UserRepositories(repos[..i], api, decode, parseLine)
    {
      UserRepositoriesComplete(repos, i, api, decode, parseLine);
      var repo := repos[i];
      var (owner, repoName) := SplitFullName(repo.fullName);
      var hasBeads := RepoHasBeads(api, owner, repoName);
      if !hasBeads {
        continue;
      }
      var issues := FetchBeadsIssues(api, owner, repoName, decode, parseLine);
      var prefix := GetRepoPrefix(api, owner, repoName);
      repositories := repositories + [Repository(repo.name, Url(repo.htmlUrl), Url(repo.htmlUrl + "/.beads"), issues, prefix)];
    }
    assert repos[..|repos|] == repos;
  }

  /** `loadGitHubMultiRepoData`. */
  method LoadGitHubMultiRepoData(listing: Option<seq<RemoteRepo>>, api: ContentApi, decode: Decoder,
                                 parseLine: LineParser) returns (data: MultiRepoData)
    ensures data == Tally(UserRepositories(FetchUserRepos(listing), api, decode, parseLine))
  {
    var repositories := LoadUserRepos(listing, api, decode, parseLine);
    var allIssues := AllIssues(repositories);
    var totalOpen := |Filter(allIssues, StatusIs(Open))|;
    var totalInProgress := |Filter(allIssues, StatusIs(InProgress))|;
    var totalClosed := |Filter(allIssues, StatusIs(Closed))|;
    data := MultiRepoData(repositories, allIssues, totalOpen, totalInProgress, totalClosed);
  }
}
