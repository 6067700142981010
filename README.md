# bd-control-plane issue aggregation, in Dafny

bd-control-plane is a dashboard over the issue databases of the *beads*
(`bd`) issue tracker. Each tracked repository has a `.beads` directory holding
an `issues.jsonl` file (one JSON issue per line) and a `<prefix>.db` database.
This project models the part of the dashboard that turns those files into
answers:

- **Filesystem loader** (`lib/bd-parser.ts`):
  - the JSONL reader, whose blank and unparseable lines are dropped one by one;
  - the bounded depth-first search for `.beads` directories;
  - the name and prefix of a repository and the loading of one repository;
  - the multi-repository aggregate with its status totals;
  - the dependency graph, the "ready" filter and the analytics metrics.
- **GitHub loader** (`lib/github-api.ts`): the same aggregate built from the
  repositories listed for a user. Repositories without a `.beads` directory are
  skipped. The prefix rule here differs from the filesystem one.
- **API route handlers**, their derivation logic only:
  - issue listing with repository tags and the `status`, `priority`, `repo`
    and `ready` filters;
  - dependency graph with its issue-to-repository map and repository selection;
  - metrics overall and per repository;
  - repository summaries with totals.
- **Page guard** (`middleware.ts`): a protected page without a session cookie
  is redirected to `/login`.

Everything outside the program is a parameter:

- **Filesystem:** a directory tree, and a table from `.beads` paths to the
  state of their `issues.jsonl` file and to their listing.
- **GitHub API:** the listing page, and a function answering each contents
  request.
- **Decoding:** `JSON.parse` of one line is a `string -> Option<Issue>`, and
  base64 decoding is a `string -> string`.

Each imperative function of the source is a method proved against a function
that specifies it. The properties the code promises are proved as lemmas
about those functions:

- `findBeadsDirectories` is a method of a class whose field is the
  `beadsDirs` array.
- `loadMultiRepoData`, `buildDependencyGraph`, `getReadyIssues`,
  `loadUserRepos` and the graph route's map-building loops are methods with
  loop invariants.

Modules, one file each:

- `Lists`: `Option`, `Filter`, `FirstIndex`.
- `Strings`: the ECMAScript string operations used (`trim`, `split`,
  `startsWith`, `endsWith`, `indexOf`, `replace`, `parseInt`).
- `Types`: `lib/types.ts`.
- `MultiRepo`: the aggregate shared by both loaders.
- `BdParser`, `GithubApi`, `IssuesRoute`, `GraphRoute`, `MetricsRoute`,
  `ReposRoute`, `Middleware`.

Two points of the code are easy to misread:

- An edge id is `issue_id-depends_on_id-type` (`lib/bd-parser.ts:164`).
- The GitHub listing is the one page of up to 100 repositories that is
  requested (`lib/github-api.ts:16-19`); it is not a paginated enumeration.

## Model

| member | source | states |
|---|---|---|
| BdParser.ParseLines | lib/bd-parser.ts:13-20 | each line is parsed on its own and a line that fails is dropped, so there is at most one issue per line |
| BdParser.ParseJsonlText | lib/bd-parser.ts:11-20 | the issues read from a text are at most its non-blank lines in number |
| BdParser.ParseLinesProvenance | lib/bd-parser.ts:13-20 | every issue read is what the line parser made of one of the lines |
| BdParser.ParseJsonlFile | lib/bd-parser.ts:8-25 | a missing or unreadable file gives no issues; a readable one gives at most one issue per non-blank line |
| BdParser.ParseLinesAppend | lib/bd-parser.ts:13-20 | parse faults are isolated per line: the issues of two blocks of lines are those of each block, in order |
| BdParser.ParseLinesAllValid | lib/bd-parser.ts:13-20 | when every line parses, every line yields exactly its issue, in input order |
| BdParser.BlankTextHasNoIssues | lib/bd-parser.ts:11 | a text of whitespace only yields no issues |
| BdParser.JsonlRoundTrip | lib/bd-parser.ts:11-20 | a non-empty list of issues, written one per line by a writer the line parser inverts and whose lines are non-empty, hold no newline and neither start nor end with whitespace, is read back exactly, in order |
| BdParser.BeadsScan.Scan | lib/bd-parser.ts:33-61 | a scan appends to `beadsDirs` exactly the `.beads` paths the depth-first specification finds below the directory |
| BdParser.FindBeadsDirectories | lib/bd-parser.ts:30-65 | the scan started at depth 0 on the root returns exactly the specified `.beads` paths, in depth-first readdir order |
| BdParser.BeadsAtShape | lib/bd-parser.ts:34-55 | a path the scan can reach ends in `.beads`, lies at most `maxDepth + 1` components below the root, and passes only through directories that are neither skipped nor `.beads` |
| BdParser.FoundSound | lib/bd-parser.ts:33-63 | every returned path extends the root by such an admissible path |
| BdParser.FoundComplete | lib/bd-parser.ts:33-63 | with no read errors, every admissible `.beads` directory within the depth bound is returned |
| BdParser.FoundSplit | lib/bd-parser.ts:39-56 | the results for a listing are those of its first entries followed by those of the rest, in readdir order |
| BdParser.UnreadableSubtreeDropsOnlyItself | lib/bd-parser.ts:57-60 | a directory whose read fails contributes nothing, and its siblings are scanned as if it were absent |
| BdParser.GetRepoInfo | lib/bd-parser.ts:70-83 | the name is the parent directory's basename; the prefix is the first non-`beads.db` database name with its `.db` suffix removed, else the name, also when the listing fails |
| BdParser.LoadRepository | lib/bd-parser.ts:88-110 | no repository iff `issues.jsonl` is absent; otherwise its path is the parent of the `.beads` path, its database path is the `.beads` path, its issues are the file's, and its name and prefix are `getRepoInfo`'s |
| BdParser.DiscoverAllAppend | lib/bd-parser.ts:119-121 | discovery is root by root: the `.beads` directories of two lists of roots are those of each list, in order |
| BdParser.LoadAll | lib/bd-parser.ts:122-128 | at most one repository per `.beads` directory |
| BdParser.LoadAllSound | lib/bd-parser.ts:122-128 | every loaded repository is what loading one of the `.beads` directories gives, so that directory has an issue file |
| BdParser.LoadAllAppend | lib/bd-parser.ts:119-129 | the repositories loaded from two lists of directories are those of each list, in order |
| BdParser.LoadMultiRepoData | lib/bd-parser.ts:115-142 | the aggregate holds the repositories loaded from every root's `.beads` directories, in discovery order, their issues concatenated, and exact status counts over them |
| BdParser.RepoLabel | lib/bd-parser.ts:154 | a node's repository is the mapped name when present and non-empty, else "unknown"; never empty |
| BdParser.AllDepsAppend | lib/bd-parser.ts:158-171 | the dependency entries of two issue lists are those of each list, in order |
| BdParser.AllDepsAt | lib/bd-parser.ts:158-171 | dependency k of issue i sits among all entries right after the entries of the issues before i |
| BdParser.AllDepsMember | lib/bd-parser.ts:158-171 | every entry among all dependency entries is one dependency of one input issue |
| BdParser.EdgesAppend | lib/bd-parser.ts:158-171 | the edges of two issue lists are those of each list, in order |
| BdParser.EdgeCount | lib/bd-parser.ts:158-171 | there is one edge per dependency, an absent dependency list counting as empty |
| BdParser.EdgeAt | lib/bd-parser.ts:158-171 | the edge of dependency k of issue i comes at its place in issue-then-dependency order; it runs from `depends_on_id` to `issue_id`, keeps the type, and has id `issue_id-depends_on_id-type` |
| BdParser.EdgeOrigin | lib/bd-parser.ts:158-171 | every edge is the edge of one dependency of one input issue |
| BdParser.GraphOf | lib/bd-parser.ts:147-174 | one node per issue, in order, with the issue's id and the repository label, and as many edges as dependencies |
| BdParser.BuildDependencyGraph | lib/bd-parser.ts:147-174 | the nested edge loop builds exactly the specified graph |
| BdParser.IdMap | lib/bd-parser.ts:180 | the id map holds exactly the ids of the issues, each mapped to an issue with that id |
| BdParser.IdMapUnique | lib/bd-parser.ts:180 | with unique ids every issue is found under its own id |
| BdParser.IsReadyCallback | lib/bd-parser.ts:182-200 | the filter callback, with its early returns, keeps an issue iff it is open and none of its `blocks` dependencies points to a present issue that is not closed |
| BdParser.ReadyIssues | lib/bd-parser.ts:179-201 | the ready issues are never more than the open ones |
| BdParser.GetReadyIssues | lib/bd-parser.ts:179-201 | the ready issues are the input subsequence the callback keeps |
| BdParser.ReadyIffBlockersClosed | lib/bd-parser.ts:184-196 | with unique ids, an issue is ready iff it is open and every input issue it `blocks`-depends on is closed |
| BdParser.NonBlockingDependencyIgnored | lib/bd-parser.ts:188-193 | adding a dependency that is not `blocks`, or whose target is absent, never changes readiness |
| BdParser.ReadyInSubset | lib/bd-parser.ts:180-196 | when ids are unique, an issue ready among all issues stays ready among any part of them that contains it, since an absent target never blocks |
| BdParser.ReadyIdempotent | lib/bd-parser.ts:179-201 | with unique ids, filtering the ready issues again changes nothing |
| BdParser.PriorityBucketsCount | lib/bd-parser.ts:213-219 | the five priority buckets together count exactly the issues of priority 0 to 4 |
| BdParser.TypeBucketsCover | lib/bd-parser.ts:221-226 | the four type buckets together count every issue |
| BdParser.CalculateMetrics | lib/bd-parser.ts:206-240 | the status buckets and the type buckets each sum to the total; the priority buckets sum to at most the total; the dependency sum is the edge count; the divisor is never 0 and is the issue count when there are issues; the ready count is at most the open count |
| MultiRepo.AllIssuesAppend | lib/github-api.ts:142 | the flattening of two repository lists is the concatenation of their flattenings |
| MultiRepo.AllIssuesAt | lib/bd-parser.ts:126 | issue k of repository r sits in the flattening just after the issues of the repositories before r |
| MultiRepo.AllIssuesMember | lib/github-api.ts:142 | every issue of the flattening belongs to some repository |
| MultiRepo.StatusCountsCover | lib/bd-parser.ts:131-133 | the three status counts together count every issue |
| MultiRepo.Tally | lib/github-api.ts:142-153 | the aggregate keeps the repositories and their flattened issues, and its three totals are exact status counts that add up to the issue count |
| GithubApi.FetchUserRepos | lib/github-api.ts:14-29 | a failed listing request gives no repositories; otherwise the page's repositories, in order |
| GithubApi.FetchBeadsIssues | lib/github-api.ts:50-81 | no issues when the request fails, the path is not a file, or its content is absent or empty; otherwise the JSONL reading of the decoded content |
| GithubApi.RemoteReadsLikeLocal | lib/github-api.ts:58-74 | a remote file is read exactly as the filesystem loader reads a file holding the decoded text |
| GithubApi.RepoHasBeads | lib/github-api.ts:34-45 | a repository is tracked exactly when its `.beads` path answers as a directory or as a file: any entry of that name counts, not only a directory |
| GithubApi.GetRepoPrefix | lib/github-api.ts:86-104 | the prefix is the first non-`beads.db` database entry of `.beads` with its first `.db` removed; the repository name when the request fails, the path is not a directory, or there is no such entry |
| GithubApi.ReplaceSuffixOnly | lib/github-api.ts:97 | removing the first `.db` of a name in which `.db` occurs only as its suffix strips that suffix |
| GithubApi.PrefixAgreesWithLocal | lib/github-api.ts:86-104 | for a clone directory named after the repository and database names holding `.db` only as their suffix, `getRepoPrefix` and `getRepoInfo` give the same prefix |
| GithubApi.PrefixDiffersFromLocal | lib/github-api.ts:86-104 | for a `.beads` directory holding `x.dbz.db`, `getRepoPrefix` gives `xz.db` while `getRepoInfo` gives `x.dbz` |
| GithubApi.SplitFullNameRoundTrip | lib/github-api.ts:116 | `owner/name` splits back into its owner and its name |
| GithubApi.UserRepositories | lib/github-api.ts:115-131 | at most one record per listed repository |
| GithubApi.UserRepositoriesSound | lib/github-api.ts:115-131 | every loaded record is that of a listed repository that has a `.beads` directory |
| GithubApi.UserRepositoriesAppend | lib/github-api.ts:115-131 | each listed repository contributes on its own, so listing order is kept |
| GithubApi.UserRepositoriesComplete | lib/github-api.ts:118-130 | a repository with `.beads` adds exactly its record (name, URL, URL + `/.beads`, issues, prefix) at the end; one without adds nothing |
| GithubApi.LoadUserRepos | lib/github-api.ts:109-134 | the loop loads exactly the specified repositories |
| GithubApi.LoadGitHubMultiRepoData | lib/github-api.ts:139-154 | the aggregate of the user's tracked repositories: their issues flattened, with exact status counts |
| IssuesRoute.RepositoryOf | app/api/issues/route.ts:39-44 | an issue is tagged with the first repository holding its id, an empty name or no repository giving "unknown" |
| IssuesRoute.TagIsOwner | app/api/issues/route.ts:38-46 | with ids unique across repositories, each issue is tagged with its own repository |
| IssuesRoute.TagIssues | app/api/issues/route.ts:37-45 | one tagged entry per loaded issue, in order, each carrying that issue and a non-empty repository name |
| IssuesRoute.ApplyFilters | app/api/issues/route.ts:47-70 | the filters only remove issues, and a query without parameters keeps every issue |
| IssuesRoute.ApplyFiltersChain | app/api/issues/route.ts:51-70 | each query filter is either switched off (keeps everything) or applied, one after the other |
| IssuesRoute.ApplyFiltersSelects | app/api/issues/route.ts:48-70 | the chained filters select, in order, exactly the tagged issues satisfying every active filter |
| IssuesRoute.ListIssues | app/api/issues/route.ts:29-75 | the response lists, in order, the tagged issues satisfying every active filter, and its count is their number |
| IssuesRoute.ReadyQueryListsReadyIssues | app/api/issues/route.ts:32-70 | with unique ids, `ready=true` lists only issues that are ready among all loaded issues, whatever else narrowed the list |
| IssuesRoute.PriorityQueryDecimal | app/api/issues/route.ts:55-58 | a decimal `priority` parameter filters on exactly that number |
| IssuesRoute.UnparsedPriorityIgnored | app/api/issues/route.ts:55-60 | a `priority` parameter that `parseInt` reads as NaN is ignored, not rejected: the listing equals the one without it |
| IssuesRoute.EmptyAndWordPrioritiesIgnored | app/api/issues/route.ts:55-60 | the empty parameter and `abc` are such parameters |
| GraphRoute.AddRepoIssues | app/api/graph/route.ts:36-38 | writing one repository's issues maps each of its ids to its name and keeps every other entry |
| GraphRoute.RepoMap | app/api/graph/route.ts:34-39 | the map's ids are exactly the ids of the repositories' issues |
| GraphRoute.RepoMapLastWins | app/api/graph/route.ts:35-38 | an id is mapped to the last repository holding it |
| GraphRoute.BuildRepoMap | app/api/graph/route.ts:34-39 | the two loops build exactly the specified map |
| GraphRoute.SelectIssues | app/api/graph/route.ts:41-49 | a named repository selects the issues of the first repository with that name; no name, or no match, selects all issues |
| GraphRoute.GraphResponse | app/api/graph/route.ts:29-51 | the response is the dependency graph of the selected issues labelled by the map |
| GraphRoute.GraphLabelIsTag | app/api/graph/route.ts:34-39 | with unique ids, a node's repository agrees with the listing's tag for the issue |
| GraphRoute.RepeatedIdLabelsDiffer | app/api/graph/route.ts:37 | with an id in two repositories the listing names the first and the graph the last |
| MetricsRoute.MetricsOf | app/api/metrics/route.ts:28-41 | one per-repository entry per repository, in order, with its name and its own issue total; the overall total is the number of loaded issues; `repositories` is their count |
| MetricsRoute.SumsAddUp | app/api/metrics/route.ts:29-35 | the per-repository totals, status buckets and dependency sums add up to the issue count, the status counts and the edge count of the flattened issues |
| MetricsRoute.PerRepositoryTotalsAddUp | app/api/metrics/route.ts:28-41 | in the endpoint's answer for an aggregate built by either loader, there is one entry per repository and the per-repository totals, status buckets and dependency sums add up to the overall ones |
| MetricsRoute.ReadySumBound | app/api/metrics/route.ts:29-35 | when everything ready overall is ready in its own repository, the per-repository ready counts add up to at least the overall one |
| MetricsRoute.PerRepositoryReadyAtLeastOverall | app/api/metrics/route.ts:28-41 | in the endpoint's answer, with unique ids, the per-repository ready counts add up to at least the overall ready count |
| ReposRoute.Summarize | app/api/repos/route.ts:33-41 | a summary copies name, path and prefix, counts every issue, and its three status counts add up to the issue count |
| ReposRoute.ReposOf | app/api/repos/route.ts:30-47 | one summary per repository, in order, with its name and issue count; the repository total is their number and the issue total the number of loaded issues |
| ReposRoute.SummariesAddUp | app/api/repos/route.ts:37-40 | the summaries' issue and status counts add up to those of the flattened issues |
| ReposRoute.TotalsMatchSummaries | app/api/repos/route.ts:32-47 | the reported totals equal the sums over the summaries, and the status totals add up to the issue total |
| Middleware.Guard | middleware.ts:6-26 | a request is redirected iff its path is protected and it carries no session cookie; the redirect goes to `/login` with `from` set to the path |
| Middleware.IsProtectedPath | middleware.ts:3-10 | a path is protected only when it starts with one of the seven protected prefixes; so a protected path starts with `/`, is at least six characters long, and is never one of the public pages |
| Middleware.ProtectedExtends | middleware.ts:10 | whatever follows a protected path is protected too |
| Middleware.PublicPagesPass | middleware.ts:3-14 | `/` and `/login` always pass, so the login redirect cannot loop |
| Middleware.PrefixMatchReachesFurther | middleware.ts:4-10 | `/graphs` and `/administrator` are guarded like `/graph` and `/admin` |
| Strings.TrimEmptyIffBlank | lib/bd-parser.ts:11 | a line is dropped iff it is whitespace only |
| Strings.JoinSplit | lib/github-api.ts:116 | joining the parts of a split gives back the string |
| Strings.SplitJoin | lib/github-api.ts:116 | splitting parts joined by a separator they lack gives back the parts |
| Strings.ParseIntDecimal | app/api/issues/route.ts:56 | `parseInt` reads back a decimal numeral |
| Strings.ParseIntNegativeDecimal | app/api/issues/route.ts:56 | `parseInt` reads back a negative decimal numeral |

## Left out

- File reading, directory listing, `existsSync`, `path.join`, the Octokit client and base64 decoding are left out as I/O or foreign code. They become the parameters described above.
- `JSON.parse` of a line is a parameter, `string -> Option<Issue>`. A line that parses to something other than an issue record is outside the model.
- `console.error` logging is left out.
- `async`/`await` is left out: the remote loader runs sequentially.
- The contents endpoint is a function. Repeated requests for the same path get the same answer.
- Session checks, 400/401/500 responses and `NextResponse` construction in the routes are transport, so they are left out.
- The middleware `matcher` is framework configuration. The URL encoding of `from` is left out.
- Every error inside the route handlers is left out except the ones the loaders themselves catch.
- BdParser.CalculateMetrics: `avgDepsPerIssue` is a floating-point quotient, so the model gives its two integer operands instead (the dependency sum and the divisor `max(n, 1)`).
- GithubApi.SplitFullName: a `full_name` without `/` gives JavaScript's `undefined` repository name, and the model passes the empty string instead.
- GithubApi.FetchUserRepos: only the one requested page is modelled; any further pages are not fetched by the code either.
- Paths are sequences of components. `path.dirname`/`path.basename` drop or take the last component, so Node's path-string normalisation is left out.
- Strings.ParseInt: values are unbounded integers, so the precision loss of very long numerals converted to a floating-point number is left out.
- A `status` or `issue_type` outside the closed enumerations is outside the model: issues are typed records. That is why `StatusCountsCover`, `TypeBucketsCover` and `CalculateMetrics` state that the status and type buckets add up to exactly the total, where the code alone only ensures at most the total.
- The issue-listing tag on each issue is a separate field; the object spread copying every issue field is left out.
