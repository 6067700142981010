/** The aggregate both loaders build from their repositories: the flattened
    issue list and the three status tallies over it. */
module MultiRepo {
  import opened Lists
  import opened Types

  /** `repositories.flatMap(repo => repo.issues)`: repository order, then file order. */
  function AllIssues(repos: seq<Repository>): seq<Issue> {
    if repos == [] then [] else AllIssues(repos[..|repos| - 1]) + repos[|repos| - 1].issues
  }

  /** Flattening a concatenation of repository lists concatenates the flattenings. */
  lemma {:induction false} AllIssuesAppend(a: seq<Repository>, b: seq<Repository>)
    ensures AllIssues(a + b) == AllIssues(a) + AllIssues(b)
    decreases |b|
  {
    if b == [] {
      assert a + b == a;
    } else {
      assert (a + b)[..|a + b| - 1] == a + b[..|b| - 1];
      AllIssuesAppend(a, b[..|b| - 1]);
    }
  }

  /** Issue `k` of repository `r` sits in the flattened list right after the
      issues of the repositories before `r`. */
  lemma {:induction false} AllIssuesAt(repos: seq<Repository>, r: nat, k: nat)
    requires r < |repos| && k < |repos[r].issues|
    ensures |AllIssues(repos[..r])| + k < |AllIssues(repos)|
    ensures AllIssues(repos)[|AllIssues(repos[..r])| + k] == repos[r].issues[k]
  {
    assert repos == repos[..r] + [repos[r]] + repos[r + 1..];
    AllIssuesAppend(repos[..r] + [repos[r]], repos[r + 1..]);
    AllIssuesAppend(repos[..r], [repos[r]]);
    assert AllIssues([repos[r]]) == repos[r].issues by {
      assert [repos[r]][..0] == [];
    }
  }

  /** Every issue of a repository is in the flattened list. */
  lemma AllIssuesContains(repos: seq<Repository>, r: nat)
    requires r < |repos|
    ensures forall y :: y in repos[r].issues ==> y in AllIssues(repos)
  {
    forall y | y in repos[r].issues ensures y in AllIssues(repos) {
      var k :| 0 <= k < |repos[r].issues| && repos[r].issues[k] == y;
      AllIssuesAt(repos, r, k);
    }
  }

  /** Every issue of the flattened list belongs to some repository. */
  lemma {:induction false} AllIssuesMember(repos: seq<Repository>, x: Issue)
    requires x in AllIssues(repos)
    ensures exists r :: 0 <= r < |repos| && x in repos[r].issues
    decreases |repos|
  {
    var n := |repos| - 1;
    if x in repos[n].issues {
    } else {
      AllIssuesMember(repos[..n], x);
      var r :| 0 <= r < n && x in repos[..n][r].issues;
      assert repos[r] == repos[..n][r];
    }
  }

  /** The repositories before `r` hold fewer issues than those before any later one. */
  lemma AllIssuesPrefixLength(repos: seq<Repository>, q: nat, r: nat)
    requires q < r <= |repos|
    ensures |AllIssues(repos[..q])| + |repos[q].issues| <= |AllIssues(repos[..r])|
  {
    assert repos[..r] == repos[..q + 1] + repos[q + 1..r];
    AllIssuesAppend(repos[..q + 1], repos[q + 1..r]);
    assert repos[..q + 1][..q] == repos[..q];
  }

  /** Whether some issue of `issues` has the id. */
  predicate HasId(issues: seq<Issue>, id: string) {
    exists k :: 0 <= k < |issues| && issues[k].id == id
  }

  /** `r.issues.some(i => i.id === id)`. */
  function HasIssueId(id: string): Repository -> bool {
    (r: Repository) => HasId(r.issues, id)
  }

  /** When ids are unique across all repositories, an issue's id occurs in no
      other repository than its own. */
  lemma OnlyOwnerHasId(repos: seq<Repository>, r: nat, k: nat, q: nat)
    requires UniqueIds(AllIssues(repos))
    requires r < |repos| && k < |repos[r].issues| && q < |repos| && q != r
    ensures !HasIssueId(repos[r].issues[k].id)(repos[q])
  {
    var id := repos[r].issues[k].id;
    if HasIssueId(id)(repos[q]) {
      var k' :| 0 <= k' < |repos[q].issues| && repos[q].issues[k'].id == id;
      AllIssuesAt(repos, q, k');
      AllIssuesAt(repos, r, k);
      if q < r {
        AllIssuesPrefixLength(repos, q, r);
      } else {
        AllIssuesPrefixLength(repos, r, q);
      }
      assert false;
    }
  }

  function StatusIs(s: IssueStatus): Issue -> bool {
    (i: Issue) => i.status == s
  }

  /** `issues.filter(i => i.status === s).length`. */
  function CountStatus(issues: seq<Issue>, s: IssueStatus): nat {
    |Filter(issues, StatusIs(s))|
  }

  lemma CountStatusAppend(a: seq<Issue>, b: seq<Issue>, s: IssueStatus)
    ensures CountStatus(a + b, s) == CountStatus(a, s) + CountStatus(b, s)
  {
    FilterAppend(a, b, StatusIs(s));
  }

  /** Status is a closed enumeration, so the three tallies cover every issue. */
  lemma {:induction false} StatusCountsCover(issues: seq<Issue>)
    ensures CountStatus(issues, Open) + CountStatus(issues, InProgress)
            + CountStatus(issues, Closed) == |issues|
    decreases |issues|
  {
    if issues != [] {
      StatusCountsCover(issues[..|issues| - 1]);
    }
  }

  /** The aggregate returned by both loaders for a list of loaded repositories. */
  function Tally(repos: seq<Repository>): (d: MultiRepoData)
    ensures d.repositories == repos && d.allIssues == AllIssues(repos)
    ensures d.totalOpen == CountStatus(d.allIssues, Open)
    ensures d.totalInProgress == CountStatus(d.allIssues, InProgress)
    ensures d.totalClosed == CountStatus(d.allIssues, Closed)
    ensures d.totalOpen + d.totalInProgress + d.totalClosed == |d.allIssues|
  {
    var allIssues := AllIssues(repos);
    StatusCountsCover(allIssues);
    MultiRepoData(repos, allIssues, CountStatus(allIssues, Open),
                  CountStatus(allIssues, InProgress), CountStatus(allIssues, Closed))
  }
}
