/** The issue record model of the beads issue tracker: issues, their
    dependencies, repositories, the multi-repository aggregate and the
    dependency-graph shapes. Timestamps and free text are carried verbatim. */
module Types {
  import opened Lists

  datatype IssueStatus = Open | InProgress | Closed

  datatype IssueType = Task | Feature | Epic | Bug

  datatype DependencyType = Blocks | Related | ParentChild | DiscoveredFrom

  /** The JSON spelling of a status, the text a `status` query is compared with. */
  function StatusName(s: IssueStatus): string {
    match s
    case Open => "open"
    case InProgress => "in_progress"
    case Closed => "closed"
  }

  /** The JSON spelling of a dependency type, the last part of an edge id. */
  function DependencyTypeName(t: DependencyType): string {
    match t
    case Blocks => "blocks"
    case Related => "related"
    case ParentChild => "parent-child"
    case DiscoveredFrom => "discovered-from"
  }

  /** `issueId` has a dependency on `dependsOnId`. */
  datatype Dependency = Dependency(
    issueId: string,
    dependsOnId: string,
    depType: DependencyType,
    createdAt: string,
    createdBy: string)

  datatype Issue = Issue(
    id: string,
    title: string,
    description: Option<string>,
    notes: Option<string>,
    status: IssueStatus,
    priority: int,
    issueType: IssueType,
    assignee: Option<string>,
    createdAt: string,
    updatedAt: string,
    closedAt: Option<string>,
    dependencies: Option<seq<Dependency>>,
    acceptanceCriteria: Option<string>,
    design: Option<string>,
    externalRef: Option<string>)

  /** The dependency list, empty when the field is absent. */
  function Deps(i: Issue): seq<Dependency> {
    match i.dependencies
    case None => []
    case Some(ds) => ds
  }

  /** No two issues share an id. */
  predicate UniqueIds(issues: seq<Issue>) {
    forall i, j :: 0 <= i < j < |issues| ==> issues[i].id != issues[j].id
  }

  /** Where a repository lives: a local directory (as path components) or a
      remote URL. The core treats both as opaque. */
  datatype Location = LocalPath(components: seq<string>) | Url(url: string)

  datatype Repository = Repository(
    name: string,
    path: Location,
    dbPath: Location,
    issues: seq<Issue>,
    prefix: string)

  datatype MultiRepoData = MultiRepoData(
    repositories: seq<Repository>,
    allIssues: seq<Issue>,
    totalOpen: nat,
    totalInProgress: nat,
    totalClosed: nat)

  datatype GraphNode = GraphNode(
    id: string,
    title: string,
    status: IssueStatus,
    priority: int,
    nodeType: IssueType,
    repo: string,
    assignee: Option<string>)

  datatype GraphEdge = GraphEdge(id: string, source: string, target: string, edgeType: DependencyType)

  datatype DependencyGraph = DependencyGraph(nodes: seq<GraphNode>, edges: seq<GraphEdge>)
}
