/** The issue listing endpoint: every loaded issue tagged with the name of the
    repository it belongs to, narrowed by the optional `status`, `priority`,
    `repo` and `ready` query parameters. */
module IssuesRoute {
  import opened Lists
  import opened Strings
  import opened Types
  import opened MultiRepo
  import opened BdParser

  /** The query parameters as `searchParams.get` gives them (`None` when absent). */
  datatype Query = Query(status: Option<string>, priority: Option<string>, repo: Option<string>, ready: Option<string>)

  /** An issue with the name of the repository it was found in. */
  datatype TaggedIssue = TaggedIssue(issue: Issue, repository: string)

  datatype IssuesResponse = IssuesResponse(issues: seq<TaggedIssue>, count: nat)

  /** A present, non-empty parameter (JavaScript truthiness of a string or null). */
  predicate Truthy(s: Option<string>) {
    s.Some? && s.value != ""
  }

  /** The name shown for an issue id: that of the first repository holding an
      issue with the id, with a missing repository or an empty name read as
      "unknown". */
  function RepositoryOf(repos: seq<Repository>, id: string): (name: string)
    ensures name != ""
    ensures (forall r :: 0 <= r < |repos| ==> !HasIssueId(id)(repos[r])) ==> name == "unknown"
    ensures forall r :: (0 <= r < |repos| && HasIssueId(id)(repos[r])
                         && forall q :: 0 <= q < r ==> !HasIssueId(id)(repos[q])) ==>
              name == if repos[r].name != "" then repos[r].name else "unknown"
  {
    match FirstIndex(repos, HasIssueId(id))
    case None => "unknown"
    case Some(r) => if repos[r].name != "" then repos[r].name else "unknown"
  }

  /** With ids unique across the repositories, every issue is tagged with its
      own repository's name. */
  lemma TagIsOwner(repos: seq<Repository>, r: nat, k: nat)
    requires UniqueIds(AllIssues(repos))
    requires r < |repos| && k < |repos[r].issues|
    ensures RepositoryOf(repos, repos[r].issues[k].id) == if repos[r].name != "" then repos[r].name else "unknown"
  {
    var id := repos[r].issues[k].id;
    assert HasIssueId(id)(repos[r]);
    forall q | 0 <= q < r
      ensures !HasIssueId(id)(repos[q])
    {
      OnlyOwnerHasId(repos, r, k, q);
    }
  }

  /** The issues of the aggregate, each tagged with its repository. */
  function TagIssues(data: MultiRepoData): (r: seq<TaggedIssue>)
    ensures |r| == |data.allIssues|
    ensures forall k :: 0 <= k < |r| ==> r[k].issue == data.allIssues[k] && r[k].repository != ""
  {
    seq(|data.allIssues|, k requires 0 <= k < |data.allIssues| =>
      TaggedIssue(data.allIssues[k], RepositoryOf(data.repositories, data.allIssues[k].id)))
  }

  /** `i.status === status` when a status is given. */
  function StatusFilter(q: Query): TaggedIssue -> bool {
    (t: TaggedIssue) => Truthy(q.status) ==> StatusName(t.issue.status) == q.status.value
  }

  /** The priority filter's number: present and parsed by `parseInt`. */
  function PriorityQuery(q: Query): Option<int> {
    if q.priority.Some? then ParseInt(q.priority.value) else None
  }

  /** `i.priority === priorityNum` when the parameter parses. */
  function PriorityFilter(q: Query): TaggedIssue -> bool {
    (t: TaggedIssue) => PriorityQuery(q).Some? ==> t.issue.priority == PriorityQuery(q).value
  }

  /** `i.repository === repo` when a repository is given. */
  function RepoFilter(q: Query): TaggedIssue -> bool {
    (t: TaggedIssue) => Truthy(q.repo) ==> t.repository == q.repo.value
  }

  /** `new Set(getReadyIssues(issues).map(i => i.id))`. */
  function ReadyIds(issues: seq<Issue>): set<string> {
    set i | i in ReadyIssues(issues) :: i.id
  }

  /** `readyIds.has(i.id)` when `ready=true`. */
  function ReadyFilter(q: Query, allIssues: seq<Issue>): TaggedIssue -> bool {
    (t: TaggedIssue) => q.ready == Some("true") ==> t.issue.id in ReadyIds(allIssues)
  }

  /** The four filters, applied one after the other as the handler does; the
      readiness set is computed over `allIssues`, not over the narrowed list. */
  function ApplyFilters(tagged: seq<TaggedIssue>, q: Query, allIssues: seq<Issue>): (r: seq<TaggedIssue>)
    ensures |r| <= |tagged|
    ensures q == Query(None, None, None, None) ==> r == tagged
  {
    var byStatus := if Truthy(q.status) then Filter(tagged, StatusFilter(q)) else tagged;
    var byPriority := if PriorityQuery(q).Some? then Filter(byStatus, PriorityFilter(q)) else byStatus;
    var byRepo := if Truthy(q.repo) then Filter(byPriority, RepoFilter(q)) else byPriority;
    if q.ready == Some("true") then Filter(byRepo, ReadyFilter(q, allIssues)) else byRepo
  }

  /** What a listed issue satisfies, stated once for all four parameters. */
  predicate Selected(q: Query, allIssues: seq<Issue>, t: TaggedIssue) {
    && (Truthy(q.status) ==> StatusName(t.issue.status) == q.status.value)
    && (PriorityQuery(q).Some? ==> t.issue.priority == PriorityQuery(q).value)
    && (Truthy(q.repo) ==> t.repository == q.repo.value)
    && (q.ready == Some("true") ==> t.issue.id in ReadyIds(allIssues))
  }

  function SelectedBy(q: Query, allIssues: seq<Issue>): TaggedIssue -> bool {
    (t: TaggedIssue) => Selected(q, allIssues, t)
  }

  /** A filter that is switched off keeps everything. */
  lemma FilterWhen(s: seq<TaggedIssue>, c: bool, p: TaggedIssue -> bool)
    requires !c ==> forall t :: p(t)
    ensures (if c then Filter(s, p) else s) == Filter(s, p)
  {
    if !c {
      FilterAllKept(s, p);
    }
  }

  /** Each filter of the chain is either switched off or applied. */
  lemma ApplyFiltersChain(tagged: seq<TaggedIssue>, q: Query, allIssues: seq<Issue>)
    ensures ApplyFilters(tagged, q, allIssues)
            == Filter(Filter(Filter(Filter(tagged, StatusFilter(q)), PriorityFilter(q)), RepoFilter(q)),
                      ReadyFilter(q, allIssues))
  {
    var s1 := Filter(tagged, StatusFilter(q));
    var s2 := Filter(s1, PriorityFilter(q));
    var s3 := Filter(s2, RepoFilter(q));
    FilterWhen(tagged, Truthy(q.status), StatusFilter(q));
    FilterWhen(s1, PriorityQuery(q).Some?, PriorityFilter(q));
    FilterWhen(s2, Truthy(q.repo), RepoFilter(q));
    FilterWhen(s3, q.ready == Some("true"), ReadyFilter(q, allIssues));
  }

  /** The chained filters select, in order, exactly the issues satisfying all
      the parameters given. */
  lemma ApplyFiltersSelects(tagged: seq<TaggedIssue>, q: Query, allIssues: seq<Issue>)
    ensures ApplyFilters(tagged, q, allIssues) == Filter(tagged, SelectedBy(q, allIssues))
  {
    var ps, pp, pr, pd := StatusFilter(q), PriorityFilter(q), RepoFilter(q), ReadyFilter(q, allIssues);
    ApplyFiltersChain(tagged, q, allIssues);
    FilterFilter(tagged, ps, pp);
    FilterFilter(tagged, Both(ps, pp), pr);
    FilterFilter(tagged, Both(Both(ps, pp), pr), pd);
    FilterExt(tagged, Both(Both(Both(ps, pp), pr), pd), SelectedBy(q, allIssues));
  }

  /** The listing endpoint's answer for a loaded aggregate and a query. */
  function ListIssues(data: MultiRepoData, q: Query): (resp: IssuesResponse)
    ensures resp.issues == Filter(TagIssues(data), SelectedBy(q, data.allIssues))
    ensures resp.count == |resp.issues| <= |data.allIssues|
  {
    var filtered := ApplyFilters(TagIssues(data), q, data.allIssues);
    ApplyFiltersSelects(TagIssues(data), q, data.allIssues);
    IssuesResponse(filtered, |filtered|)
  }

  /** With unique ids, `ready=true` lists only issues that are ready among all
      loaded issues, even when other filters narrowed the list first. */
  lemma ReadyQueryListsReadyIssues(data: MultiRepoData, q: Query, t: TaggedIssue)
    requires UniqueIds(data.allIssues)
    requires q.ready == Some("true")
    requires t in ListIssues(data, q).issues
    ensures t.issue in data.allIssues && IsReady(t.issue, IdMap(data.allIssues))
  {
    var all, tagged := data.allIssues, TagIssues(data);
    assert t in Filter(tagged, SelectedBy(q, all));
    assert t in tagged && Selected(q, all, t);
    var k :| 0 <= k < |all| && tagged[k] == t;
    assert t.issue == all[k];
    ReadyIdIsReady(all, k);
  }

  /** With unique ids, an issue whose id is in the readiness set is ready. */
  lemma ReadyIdIsReady(all: seq<Issue>, k: int)
    requires UniqueIds(all) && 0 <= k < |all|
    requires all[k].id in ReadyIds(all)
    ensures IsReady(all[k], IdMap(all))
  {
    var i :| i in ReadyIssues(all) && i.id == all[k].id;
    assert i in Filter(all, ReadyIn(IdMap(all)));
    assert i in all && ReadyIn(IdMap(all))(i);
    var j :| 0 <= j < |all| && all[j] == i;
    assert all[j].id == all[k].id;
  }

  /** A `priority` parameter written in decimal keeps exactly the issues of
      that priority. */
  lemma PriorityQueryDecimal(n: nat, q: Query)
    requires q.priority == Some(DecimalString(n))
    ensures PriorityQuery(q) == Some(n)
  {
    ParseIntDecimal(n);
  }

  /** A `priority` parameter that `parseInt` reads as NaN is ignored, not
      rejected: the listing is the one without the parameter. */
  lemma UnparsedPriorityIgnored(tagged: seq<TaggedIssue>, q: Query, allIssues: seq<Issue>, s: string)
    requires q.priority == Some(s) && ParseInt(s).None?
    ensures ApplyFilters(tagged, q, allIssues) == ApplyFilters(tagged, q.(priority := None), allIssues)
  {
    var q' := q.(priority := None);
    ApplyFiltersSelects(tagged, q, allIssues);
    ApplyFiltersSelects(tagged, q', allIssues);
    FilterExt(tagged, SelectedBy(q, allIssues), SelectedBy(q', allIssues));
  }

  /** The empty parameter and one without leading digits are such parameters. */
  lemma EmptyAndWordPrioritiesIgnored(tagged: seq<TaggedIssue>, q: Query, allIssues: seq<Issue>)
    requires q.priority == Some("") || q.priority == Some("abc")
    ensures ApplyFilters(tagged, q, allIssues) == ApplyFilters(tagged, q.(priority := None), allIssues)
  {
    var s := q.priority.value;
    assert TrimStart(s) == s by {
      if s != "" { assert !IsJsWhitespace(s[0]); }
    }
    assert DigitPrefix(s, 10) == [] by {
      if s != "" { assert DigitValue(s[0]) >= 10; }
    }
    assert ParseInt(s).None?;
    UnparsedPriorityIgnored(tagged, q, allIssues, s);
  }
}
