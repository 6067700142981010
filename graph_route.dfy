/** The dependency-graph endpoint: the graph of all loaded issues, or of one
    repository's issues, with every node labelled by the repository an
    issue-to-repository map names for it. */
module GraphRoute {
  import opened Lists
  import opened Types
  import opened MultiRepo
  import opened BdParser
  import opened IssuesRoute

  /** `repoMap.set(issue.id, name)` for each issue of one repository, over `m`. */
  function AddRepoIssues(m: map<string, string>, issues: seq<Issue>, name: string): (m': map<string, string>)
    ensures forall id :: id in m' <==> id in m || HasId(issues, id)
    ensures forall id :: HasId(issues, id) ==> m'[id] == name
    ensures forall id :: id in m && !HasId(issues, id) ==> m'[id] == m[id]
  {
    if issues == [] then m
    else
      var init := issues[..|issues| - 1];
      assert forall id :: HasId(issues, id) <==> HasId(init, id) || issues[|issues| - 1].id == id by {
        forall id | HasId(init, id) ensures HasId(issues, id) {
          var k :| 0 <= k < |init| && init[k].id == id;
          assert issues[k] == init[k];
        }
        forall id | HasId(issues, id) && issues[|issues| - 1].id != id ensures HasId(init, id) {
          var k :| 0 <= k < |issues| && issues[k].id == id;
          assert init[k] == issues[k];
        }
      }
      AddRepoIssues(m, init, name)[issues[|issues| - 1].id := name]
  }

  /** The issue-to-repository map: each repository's name written for its
      issues, a later repository overwriting an earlier one. */
  function RepoMap(repos: seq<Repository>): (m: map<string, string>)
    ensures forall id :: id in m <==> exists r :: 0 <= r < |repos| && HasIssueId(id)(repos[r])
  {
    if repos == [] then map[]
    else
      var init := repos[..|repos| - 1];
      assert forall r :: 0 <= r < |init| ==> init[r] == repos[r];
      AddRepoIssues(RepoMap(init), repos[|repos| - 1].issues, repos[|repos| - 1].name)
  }

  /** An id is mapped to the last repository holding it. */
  lemma {:induction false} RepoMapLastWins(repos: seq<Repository>, r: nat, id: string)
    requires r < |repos| && HasIssueId(id)(repos[r])
    requires forall q :: r < q < |repos| ==> !HasIssueId(id)(repos[q])
    ensures id in RepoMap(repos) && RepoMap(repos)[id] == repos[r].name
    decreases |repos|
  {
    var n := |repos| - 1;
    var init := repos[..n];
    if r == n {
      assert HasId(repos[n].issues, id);
    } else {
      assert !HasId(repos[n].issues, id) by {
        assert !HasIssueId(id)(repos[n]);
      }
      assert init[r] == repos[r];
      forall q | r < q < |init| ensures !HasIssueId(id)(init[q]) {
        assert init[q] == repos[q];
      }
      RepoMapLastWins(init, r, id);
    }
  }

  /** The two loops of the handler that fill the issue-to-repository map. */
  method BuildRepoMap(repos: seq<Repository>) returns (repoMap: map<string, string>)
    ensures repoMap == RepoMap(repos)
  {
    repoMap := map[];
    for i := 0 to |repos|
      invariant repoMap == RepoMap(repos[..i])
    {
      var repository := repos[i];
      ghost var start := repoMap;
      for j := 0 to |repository.issues|
        invariant repoMap == AddRepoIssues(start, repository.issues[..j], repository.name)
      {
        var issue := repository.issues[j];
        repoMap := repoMap[issue.id := repository.name];
        assert repository.issues[..j + 1][..j] == repository.issues[..j];
      }
      assert repository.issues[..|repository.issues|] == repository.issues;
      assert repos[..i + 1][..i] == repos[..i];
    }
    assert repos[..|repos|] == repos;
  }

  function NameIs(name: string): Repository -> bool {
    (r: Repository) => r.name == name
  }

  /** The issues drawn: those of the first repository with the requested
      name, or all issues when no name is given or none matches. */
  function SelectIssues(data: MultiRepoData, repo: Option<string>): (issues: seq<Issue>)
    ensures forall r :: (Truthy(repo) && 0 <= r < |data.repositories| && data.repositories[r].name == repo.value
                         && forall q :: 0 <= q < r ==> data.repositories[q].name != repo.value) ==>
              issues == data.repositories[r].issues
    ensures (!Truthy(repo) || forall r :: 0 <= r < |data.repositories| ==> data.repositories[r].name != repo.value) ==>
              issues == data.allIssues
  {
    if Truthy(repo) then
      match FirstIndex(data.repositories, NameIs(repo.value))
      case Some(r) => data.repositories[r].issues
      case None => data.allIssues
    else data.allIssues
  }

  /** The graph endpoint's answer for a loaded aggregate and an optional
      `repo` parameter. */
  method GraphResponse(data: MultiRepoData, repo: Option<string>) returns (graph: DependencyGraph)
    ensures graph == GraphOf(SelectIssues(data, repo), RepoMap(data.repositories))
  {
    var repoMap := BuildRepoMap(data.repositories);
    var issues := data.allIssues;
    if Truthy(repo) {
      var target := FirstIndex(data.repositories, NameIs(repo.value));
      if target.Some? {
        issues := data.repositories[target.value].issues;
      }
    }
    graph := BuildDependencyGraph(issues, repoMap);
  }

  /** With ids unique across the repositories, a graph node is labelled with
      the same repository name the issue listing tags it with. */
  lemma GraphLabelIsTag(repos: seq<Repository>, r: nat, k: nat)
    requires UniqueIds(AllIssues(repos))
    requires r < |repos| && k < |repos[r].issues|
    ensures RepoLabel(RepoMap(repos), repos[r].issues[k].id) == RepositoryOf(repos, repos[r].issues[k].id)
  {
    var id := repos[r].issues[k].id;
    TagIsOwner(repos, r, k);
    forall q | r < q < |repos| ensures !HasIssueId(id)(repos[q]) {
      OnlyOwnerHasId(repos, r, k, q);
    }
    assert HasIssueId(id)(repos[r]);
    RepoMapLastWins(repos, r, id);
  }

  /** With a repeated id the two disagree: the listing tags the issue with the
      first repository holding it, the graph with the last. */
  lemma RepeatedIdLabelsDiffer(a: Repository, b: Repository, x: Issue)
    requires a.name != "" && b.name != "" && a.name != b.name
    requires a.issues == [x] && b.issues == [x]
    ensures RepositoryOf([a, b], x.id) == a.name
    ensures RepoLabel(RepoMap([a, b]), x.id) == b.name
  {
    assert a.issues[0].id == x.id && b.issues[0].id == x.id;
    assert HasIssueId(x.id)(a) && HasIssueId(x.id)(b);
    assert [a, b][0] == a && [a, b][1] == b;
    RepoMapLastWins([a, b], 1, x.id);
  }
}
