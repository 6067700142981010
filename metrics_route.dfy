/** The analytics endpoint: the metrics of all loaded issues, the metrics of
    each repository on its own, and the number of repositories. */
module MetricsRoute {
  import opened Lists
  import opened Types
  import opened MultiRepo
  import opened BdParser

  datatype RepoMetrics = RepoMetrics(name: string, metrics: Metrics)

  datatype MetricsResponse = MetricsResponse(overall: Metrics, byRepo: seq<RepoMetrics>, repositories: nat)

  /** `data.repositories.map(repo => ({ name, metrics: calculateMetrics(repo.issues) }))`. */
  function ByRepo(repos: seq<Repository>): seq<RepoMetrics> {
    seq(|repos|, k requires 0 <= k < |repos| => RepoMetrics(repos[k].name, CalculateMetrics(repos[k].issues)))
  }

  /** The endpoint's answer for a loaded aggregate. */
  function MetricsOf(data: MultiRepoData): (resp: MetricsResponse)
    ensures resp.repositories == |resp.byRepo| == |data.repositories|
    ensures resp.overall.total == |data.allIssues|
    ensures forall k :: 0 <= k < |resp.byRepo| ==>
              resp.byRepo[k].name == data.repositories[k].name
              && resp.byRepo[k].metrics.total == |data.repositories[k].issues|
  {
    MetricsResponse(CalculateMetrics(data.allIssues), ByRepo(data.repositories), |data.repositories|)
  }

  function TotalOf(): RepoMetrics -> nat { (r: RepoMetrics) => r.metrics.total }

  function OpenOf(): RepoMetrics -> nat { (r: RepoMetrics) => r.metrics.byStatus.open }

  function InProgressOf(): RepoMetrics -> nat { (r: RepoMetrics) => r.metrics.byStatus.inProgress }

  function ClosedOf(): RepoMetrics -> nat { (r: RepoMetrics) => r.metrics.byStatus.closed }

  function DependenciesOf(): RepoMetrics -> nat { (r: RepoMetrics) => r.metrics.dependencySum }

  function ReadyOf(): RepoMetrics -> nat { (r: RepoMetrics) => r.metrics.readyCount }

  lemma ByRepoStep(repos: seq<Repository>)
    requires repos != []
    ensures ByRepo(repos)[..|repos| - 1] == ByRepo(repos[..|repos| - 1])
  {
  }

  lemma SumOfByRepoStep(repos: seq<Repository>, f: RepoMetrics -> nat)
    requires repos != []
    ensures SumOf(ByRepo(repos), f) == SumOf(ByRepo(repos[..|repos| - 1]), f) + f(ByRepo(repos)[|repos| - 1])
  {
    ByRepoStep(repos);
  }

  /** One more repository adds its own counts to each sum. */
  lemma SumsStep(repos: seq<Repository>)
    requires repos != []
    ensures var init, last := ByRepo(repos[..|repos| - 1]), repos[|repos| - 1].issues;
            && SumOf(ByRepo(repos), TotalOf()) == SumOf(init, TotalOf()) + |last|
            && SumOf(ByRepo(repos), OpenOf()) == SumOf(init, OpenOf()) + CountStatus(last, Open)
            && SumOf(ByRepo(repos), InProgressOf()) == SumOf(init, InProgressOf()) + CountStatus(last, InProgress)
            && SumOf(ByRepo(repos), ClosedOf()) == SumOf(init, ClosedOf()) + CountStatus(last, Closed)
            && SumOf(ByRepo(repos), DependenciesOf()) == SumOf(init, DependenciesOf()) + |Edges(last)|
  {
    assert ByRepo(repos)[|repos| - 1].metrics == CalculateMetrics(repos[|repos| - 1].issues);
    SumOfByRepoStep(repos, TotalOf());
    SumOfByRepoStep(repos, OpenOf());
    SumOfByRepoStep(repos, InProgressOf());
    SumOfByRepoStep(repos, ClosedOf());
    SumOfByRepoStep(repos, DependenciesOf());
  }

  /** The per-repository sums, stated on the counts they add up to. */
  lemma {:induction false} SumsAddUp(repos: seq<Repository>)
    ensures SumOf(ByRepo(repos), TotalOf()) == |AllIssues(repos)|
    ensures SumOf(ByRepo(repos), OpenOf()) == CountStatus(AllIssues(repos), Open)
    ensures SumOf(ByRepo(repos), InProgressOf()) == CountStatus(AllIssues(repos), InProgress)
    ensures SumOf(ByRepo(repos), ClosedOf()) == CountStatus(AllIssues(repos), Closed)
    ensures SumOf(ByRepo(repos), DependenciesOf()) == |Edges(AllIssues(repos))|
    decreases |repos|
  {
    if repos != [] {
      var init := repos[..|repos| - 1];
      var last := repos[|repos| - 1];
      SumsAddUp(init);
      SumsStep(repos);
      assert AllIssues(repos) == AllIssues(init) + last.issues;
      CountStatusAppend(AllIssues(init), last.issues, Open);
      CountStatusAppend(AllIssues(init), last.issues, InProgress);
      CountStatusAppend(AllIssues(init), last.issues, Closed);
      EdgesAppend(AllIssues(init), last.issues);
    }
  }

  /** For an aggregate built by either loader, the endpoint reports one entry
      per repository, and the per-repository issue totals, status tallies and
      dependency counts add up to the overall ones. */
  lemma PerRepositoryTotalsAddUp(repos: seq<Repository>)
    ensures var resp := MetricsOf(Tally(repos));
            && resp.repositories == |resp.byRepo|
            && SumOf(resp.byRepo, TotalOf()) == resp.overall.total
            && SumOf(resp.byRepo, OpenOf()) == resp.overall.byStatus.open
            && SumOf(resp.byRepo, InProgressOf()) == resp.overall.byStatus.inProgress
            && SumOf(resp.byRepo, ClosedOf()) == resp.overall.byStatus.closed
            && SumOf(resp.byRepo, DependenciesOf()) == resp.overall.dependencySum
  {
    SumsAddUp(repos);
    assert MetricsOf(Tally(repos)).byRepo == ByRepo(repos);
  }

  /** Every issue of `issues` ready in `m` is ready among `issues` alone. */
  ghost predicate ReadyAlone(issues: seq<Issue>, m: map<string, Issue>) {
    forall x :: x in issues && ReadyIn(m)(x) ==> ReadyIn(IdMap(issues))(x)
  }

  /** Where each repository's own readiness is weaker than readiness in `m`,
      the issues ready in `m` are at most the per-repository ready counts
      added up. */
  lemma {:induction false} ReadySumBound(rs: seq<Repository>, m: map<string, Issue>)
    requires forall r :: 0 <= r < |rs| ==> ReadyAlone(rs[r].issues, m)
    ensures |Filter(AllIssues(rs), ReadyIn(m))| <= SumOf(ByRepo(rs), ReadyOf())
    decreases |rs|
  {
    if rs != [] {
      var init := rs[..|rs| - 1];
      var last := rs[|rs| - 1];
      assert forall r :: 0 <= r < |init| ==> init[r] == rs[r];
      ReadySumBound(init, m);
      ByRepoStep(rs);
      FilterAppend(AllIssues(init), last.issues, ReadyIn(m));
      FilterCountMono(last.issues, ReadyIn(m), ReadyIn(IdMap(last.issues)));
    }
  }

  /** With unique ids, the per-repository ready counts add up to at least the
      overall one: a blocker in another repository is invisible to a
      repository's own count. */
  lemma {:induction false} PerRepositoryReadyAtLeastOverall(repos: seq<Repository>)
    requires UniqueIds(AllIssues(repos))
    ensures var resp := MetricsOf(Tally(repos));
            SumOf(resp.byRepo, ReadyOf()) >= resp.overall.readyCount
  {
    var m := IdMap(AllIssues(repos));
    forall r | 0 <= r < |repos| ensures ReadyAlone(repos[r].issues, m) {
      forall x | x in repos[r].issues && ReadyIn(m)(x) ensures ReadyIn(IdMap(repos[r].issues))(x) {
        AllIssuesContains(repos, r);
        ReadyInSubset(AllIssues(repos), repos[r].issues, x);
      }
    }
    ReadySumBound(repos, m);
    assert MetricsOf(Tally(repos)).byRepo == ByRepo(repos);
  }
}
