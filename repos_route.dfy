/** The repository listing endpoint: one summary per loaded repository with
    its issue count and status tallies, and the aggregate totals. */
module ReposRoute {
  import opened Lists
  import opened Types
  import opened MultiRepo

  datatype RepoSummary = RepoSummary(
    name: string,
    path: Location,
    prefix: string,
    issueCount: nat,
    openCount: nat,
    inProgressCount: nat,
    closedCount: nat)

  datatype ReposResponse = ReposResponse(
    repositories: seq<RepoSummary>,
    totalRepos: nat,
    totalIssues: nat,
    totalOpen: nat,
    totalInProgress: nat,
    totalClosed: nat)

  /** The summary of one repository: its tallies cover all of its issues. */
  function Summarize(repo: Repository): (s: RepoSummary)
    ensures s.name == repo.name && s.path == repo.path && s.prefix == repo.prefix
    ensures s.issueCount == |repo.issues|
    ensures s.openCount + s.inProgressCount + s.closedCount == s.issueCount
  {
    StatusCountsCover(repo.issues);
    RepoSummary(repo.name, repo.path, repo.prefix, |repo.issues|, CountStatus(repo.issues, Open),
                CountStatus(repo.issues, InProgress), CountStatus(repo.issues, Closed))
  }

  /** The endpoint's answer for a loaded aggregate. */
  function ReposOf(data: MultiRepoData): (resp: ReposResponse)
    ensures resp.totalRepos == |resp.repositories| == |data.repositories|
    ensures resp.totalIssues == |data.allIssues|
    ensures forall k :: 0 <= k < |resp.repositories| ==>
              resp.repositories[k].name == data.repositories[k].name
              && resp.repositories[k].issueCount == |data.repositories[k].issues|
  {
    ReposResponse(seq(|data.repositories|, k requires 0 <= k < |data.repositories| => Summarize(data.repositories[k])),
                  |data.repositories|, |data.allIssues|, data.totalOpen, data.totalInProgress, data.totalClosed)
  }

  function IssueCountOf(): RepoSummary -> nat { (s: RepoSummary) => s.issueCount }

  function OpenCountOf(): RepoSummary -> nat { (s: RepoSummary) => s.openCount }

  function InProgressCountOf(): RepoSummary -> nat { (s: RepoSummary) => s.inProgressCount }

  function ClosedCountOf(): RepoSummary -> nat { (s: RepoSummary) => s.closedCount }

  /** The summaries of a list of repositories. */
  function Summaries(repos: seq<Repository>): seq<RepoSummary> {
    seq(|repos|, k requires 0 <= k < |repos| => Summarize(repos[k]))
  }

  lemma {:induction false} SummariesAddUp(repos: seq<Repository>)
    ensures var all := AllIssues(repos);
            var ss := Summaries(repos);
            && SumOf(ss, IssueCountOf()) == |all|
            && SumOf(ss, OpenCountOf()) == CountStatus(all, Open)
            && SumOf(ss, InProgressCountOf()) == CountStatus(all, InProgress)
            && SumOf(ss, ClosedCountOf()) == CountStatus(all, Closed)
    decreases |repos|
  {
    if repos != [] {
      var init := repos[..|repos| - 1];
      var last := repos[|repos| - 1];
      SummariesAddUp(init);
      assert Summaries(repos)[..|repos| - 1] == Summaries(init);
      CountStatusAppend(AllIssues(init), last.issues, Open);
      CountStatusAppend(AllIssues(init), last.issues, InProgress);
      CountStatusAppend(AllIssues(init), last.issues, Closed);
    }
  }

  /** For an aggregate built by either loader, the per-repository counts add
      up to the totals reported beside them. */
  lemma TotalsMatchSummaries(repos: seq<Repository>)
    ensures var resp := ReposOf(Tally(repos));
            && resp.totalRepos == |resp.repositories|
            && SumOf(resp.repositories, IssueCountOf()) == resp.totalIssues
            && SumOf(resp.repositories, OpenCountOf()) == resp.totalOpen
            && SumOf(resp.repositories, InProgressCountOf()) == resp.totalInProgress
            && SumOf(resp.repositories, ClosedCountOf()) == resp.totalClosed
            && resp.totalOpen + resp.totalInProgress + resp.totalClosed == resp.totalIssues
  {
    SummariesAddUp(repos);
    assert ReposOf(Tally(repos)).repositories == Summaries(repos);
  }
}
