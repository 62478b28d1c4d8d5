/**
 The layout of the report main.go writes (`generateMarkdown`): one section
 per configured area in ascending order, and in each the results of that
 area sorted by repository name, an errored result showing only its
 error. The text written is left out; what is kept is which lines appear,
 where, and with which numbers.
 */
module Report {
  import opened Common
  import opened Folds
  import opened Order
  import opened Paging
  import opened GitHub
  import opened MainJob

  /** What the report shows for one repository. */
  datatype Line =
    | ErrorLine(repo: string, error: Error)
    | MetricsLine(repo: string, branchSizeBytes: int, avgAttempts: real, reRuns: int, conflicts: nat, rollbacks: nat)

  datatype Section = Section(area: string, lines: seq<Line>)

  function InArea(area: string): RepoResult -> bool
  {
    (r: RepoResult) => r.area == area
  }

  /** How many results belong to `area`. */
  function AreaCount(results: seq<RepoResult>, area: string): nat
  {
    |Filter(results, InArea(area))|
  }

  function RepoName(r: RepoResult): string
  {
    r.repo
  }

  /** The line of one result: its error alone, or its numbers with the re-runs as the attempts beyond the first. */
  function LineOf(r: RepoResult): (line: Line)
    ensures line.repo == r.repo
    ensures line.ErrorLine? <==> r.err.Some?
    ensures line.ErrorLine? ==> line.error == r.err.value
    ensures line.MetricsLine? ==>
      && line.reRuns + r.totalRuns == r.totalAttempts
      && line.branchSizeBytes == r.branchSizeBytes && line.avgAttempts == r.avgAttempts
      && line.conflicts == r.conflicts && line.rollbacks == r.rollbacks
  {
    match r.err
    case Some(e) => ErrorLine(r.repo, e)
    case None => MetricsLine(r.repo, r.branchSizeBytes, r.avgAttempts, r.totalAttempts - r.totalRuns, r.conflicts, r.rollbacks)
  }

  /** The results of one area, sorted by repository name. */
  function AreaRows(results: seq<RepoResult>, area: string): (rows: seq<RepoResult>)
    ensures SortedBy(rows, RepoName)
    ensures multiset(rows) == multiset(Filter(results, InArea(area)))
    ensures |rows| == |Filter(results, InArea(area))|
  {
    var rows := SortBy(Filter(results, InArea(area)), RepoName);
    assert |multiset(rows)| == |multiset(Filter(results, InArea(area)))|;
    rows
  }

  /** The rows of an area are exactly the results of that area. */
  lemma AreaRowsMembers(results: seq<RepoResult>, area: string)
    ensures forall r :: r in AreaRows(results, area) <==> r in results && r.area == area
  {
    var filtered := Filter(results, InArea(area));
    var rows := AreaRows(results, area);
    forall r
      ensures r in rows <==> r in filtered
    {
      assert r in rows <==> r in multiset(rows);
      assert r in filtered <==> r in multiset(filtered);
    }
  }

  function Lines(rows: seq<RepoResult>): (lines: seq<Line>)
    ensures |lines| == |rows|
    ensures forall i :: 0 <= i < |rows| ==> lines[i] == LineOf(rows[i])
  {
    seq(|rows|, i requires 0 <= i < |rows| => LineOf(rows[i]))
  }

  /** The areas of the sections, in order. */
  function AreasOf(sections: seq<Section>): (areas: seq<string>)
    ensures |areas| == |sections|
    ensures forall i :: 0 <= i < |sections| ==> areas[i] == sections[i].area
  {
    seq(|sections|, i requires 0 <= i < |sections| => sections[i].area)
  }

  /** One section per area of `areas`, in that order. */
  function SectionsFor(results: seq<RepoResult>, areas: seq<string>): (sections: seq<Section>)
    ensures |sections| == |areas|
    ensures AreasOf(sections) == areas
    ensures forall i :: 0 <= i < |areas| ==> sections[i].lines == Lines(AreaRows(results, areas[i]))
    ensures forall i :: 0 <= i < |areas| ==> |sections[i].lines| == AreaCount(results, areas[i])
  {
    seq(|areas|, i requires 0 <= i < |areas| => Section(areas[i], Lines(AreaRows(results, areas[i]))))
  }

  /** The configured areas in ascending order (`sort.Strings` over the keys). */
  function AreaOrder(projects: map<string, seq<string>>): (areas: seq<string>)
    ensures |areas| == |projects|
    ensures forall a :: a in projects <==> a in areas
    ensures Ascending(areas)
  {
    SortedElements(projects.Keys)
  }

  /**
   The sections of the report: every configured area once, in ascending
   order, each listing as many lines as there are results of that area.
   Results of areas that are not configured are not shown.
   */
  function Sections(results: seq<RepoResult>, projects: map<string, seq<string>>): (sections: seq<Section>)
    ensures |sections| == |projects|
    ensures forall a :: a in projects <==> a in AreasOf(sections)
    ensures forall i :: 0 <= i < |sections| ==>
      |sections[i].lines| == AreaCount(results, sections[i].area)
  {
    SectionsFor(results, AreaOrder(projects))
  }

  /** The sections come in ascending order of area, each area once. */
  lemma SectionsAscending(results: seq<RepoResult>, projects: map<string, seq<string>>)
    ensures var sections := Sections(results, projects);
      forall i, j :: 0 <= i < j < |sections| ==>
        LessEq(sections[i].area, sections[j].area) && sections[i].area != sections[j].area
  {
  }

  /** Every result of a configured area shows up in that area's section. */
  lemma ResultReported(results: seq<RepoResult>, projects: map<string, seq<string>>, r: RepoResult)
    requires r in results && r.area in projects
    ensures var sections := Sections(results, projects);
      exists i :: 0 <= i < |sections| && sections[i].area == r.area && LineOf(r) in sections[i].lines
  {
    var areas := AreaOrder(projects);
    var sections := SectionsFor(results, areas);
    assert sections == Sections(results, projects);
    assert r.area in areas;
    var i :| 0 <= i < |areas| && areas[i] == r.area;
    var rows := AreaRows(results, r.area);
    AreaRowsMembers(results, r.area);
    assert r in rows;
    var k :| 0 <= k < |rows| && rows[k] == r;
    assert sections[i].lines == Lines(rows);
    assert sections[i].lines[k] == LineOf(r);
  }

  /** No two results of the same area name the same repository with different outcomes. */
  ghost predicate OneResultPerRepo(results: seq<RepoResult>)
  {
    forall x, y :: x in results && y in results && x.area == y.area && x.repo == y.repo ==> x == y
  }

  /**
   The results arrive in whatever order the concurrent jobs finish. As long
   as each repository of an area has one result, the report does not
   depend on that order.
   */
  lemma ReportIgnoresArrivalOrder(results1: seq<RepoResult>, results2: seq<RepoResult>, projects: map<string, seq<string>>)
    requires multiset(results1) == multiset(results2)
    requires OneResultPerRepo(results1)
    ensures Sections(results1, projects) == Sections(results2, projects)
  {
    var s1, s2 := Sections(results1, projects), Sections(results2, projects);
    forall i | 0 <= i < |s1|
      ensures s1[i] == s2[i]
    {
      var area := s1[i].area;
      AreaRowsIgnoreOrder(results1, results2, area);
    }
  }

  lemma AreaRowsIgnoreOrder(results1: seq<RepoResult>, results2: seq<RepoResult>, area: string)
    requires multiset(results1) == multiset(results2)
    requires OneResultPerRepo(results1)
    ensures AreaRows(results1, area) == AreaRows(results2, area)
  {
    var rows1, rows2 := AreaRows(results1, area), AreaRows(results2, area);
    FilterMultiset(results1, InArea(area));
    FilterMultiset(results2, InArea(area));
    assert multiset(Filter(results1, InArea(area))) == multiset(Filter(results2, InArea(area)));
    AreaRowsMembers(results1, area);
    SortedPermutationUnique(rows1, rows2, RepoName);
  }

  /**
   When every run reports an attempt number of at least 1, the re-runs the
   report shows for a completed job are never negative.
   */
  lemma ReRunsNonNegative(r: RepoResult, runs: Listing<WorkflowRun>)
    requires r.err.None?
    requires r.totalRuns == AverageAndTotalRunAttempts(runs).totalRuns
    requires r.totalAttempts == AverageAndTotalRunAttempts(runs).totalAttempts
    requires forall run :: run in Items(runs) && run.runAttempt.Some? ==> run.runAttempt.value >= 1
    ensures LineOf(r).MetricsLine? && LineOf(r).reRuns >= 0
  {
    AttemptsCoverRuns(runs);
  }
}
