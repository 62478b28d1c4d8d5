/**
 The record of analyzer/types.go and `Check` of analyzer/analyzer.go, run
 sequentially: one metric record per listed repository, every metric error
 swallowed and its field left at the value the metric returns on error.
 */
module Analyzer {
  import opened Common
  import opened Folds
  import opened Decimal
  import opened GitHub
  import opened Paging
  import opened CommitMetrics
  import opened ActionMetrics
  import opened MergeMetrics
  import opened ContributorMetrics

  /** The configuration of an analysis; `projects` maps an area to its repositories. */
  datatype Config = Config(
    owner: string,
    defaultBranch: string,
    workflowId: string,
    start: Instant,
    end: Instant,
    projects: map<string, seq<string>>)

  /** The metrics that list the commits of the window, each walking the listing on its own. */
  datatype CommitCall = ContributorsCall | DistributionCall | ChurnByFileCall | ChurnByDirCall | RevertCall

  /** The metrics that list all pull requests, each walking the listing on its own. */
  datatype PullCall = ConflictCall | ReviewersCall | ThreadCall

  /** The metrics that list the runs of the workflow, each walking the listing on its own. */
  datatype RunCall = RerunsCall | FailuresCall | DeploysCall

  /**
   What the hosting platform answers for one repository during a run. Every
   metric makes its own calls, so two metrics listing the same endpoint may
   see different pages (one walk failing while the other succeeds, say);
   the listings and fetches are indexed by the metric making them.
   */
  datatype RepoApi = RepoApi(
    ref: string -> Result<string>,                            // the head commit of a branch reference
    tree: string -> Result<seq<TreeEntry>>,                   // the recursive tree of a commit
    commits: CommitCall -> Listing<Commit>,                   // commits inside the window
    commitDetail: CommitCall -> string -> Option<CommitDetail>, // one commit with its files
    pulls: PullCall -> Listing<PullRequest>,                  // all pull requests, newest first
    closedPulls: Listing<PullRequest>,                        // closed pull requests, newest first
    pullDetail: int -> Option<PullRequestDetail>,             // one pull request with its mergeability
    reviews: int -> Option<seq<Review>>,                      // the first page of reviews of a pull request
    integrationIssues: Listing<Issue>,                        // issues labelled bug-integration
    rollbackIssues: Listing<Issue>,                           // issues labelled rollback
    issues: Listing<Issue>,                                   // all issues since the start of the window
    issueComments: int -> Option<nat>,                        // how many comments the first page of an issue holds
    pullComments: int -> Option<nat>,                         // how many review comments the first page of a pull request holds
    runs: RunCall -> int -> Listing<WorkflowRun>)             // the runs of a workflow

  /** `RepoMetrics`; the maps a failed metric leaves nil are `None`. */
  datatype RepoMetrics = RepoMetrics(
    repo: string,
    uniqueContributors: nat,
    contributorsList: seq<string>,
    commitDist: Option<map<string, nat>>,
    conflictRate: real,
    avgMergeTimeDays: real,
    avgReviewersPerPR: real,
    crossTeamReviews: int,
    churnByFile: Option<map<string, nat>>,
    churnByDir: Option<map<string, nat>>,
    integrationIssues: nat,
    revertRate: real,
    mainBranchSizeBytes: int,
    mainFileCount: nat,
    successfulReruns: nat,
    conflictMergesCount: nat,
    rollbackIssues: nat,
    workflowFailures: nat,
    successfulDeploys: nat,
    avgThreadDepth: real)

  function ValueOr<T>(r: Result<T>, zero: T): T
  {
    if r.Ok? then r.value else zero
  }

  function MapOrNil<T>(r: Result<T>): Option<T>
  {
    if r.Ok? then Some(r.value) else None
  }

  /**
   The metric record of one repository, each field from its metric, and
   the value that metric returns on error where it fails.
   */
  function Measure(cfg: Config, repo: string, api: RepoApi): (m: RepoMetrics)
    ensures m.repo == repo
  {
    var contributors := ValueOr(UniqueContributors(api.commits(ContributorsCall)), Contributors(0, []));
    var conflicts := ValueOr(ConflictRateAndCount(api.pulls(ConflictCall), cfg.start, cfg.end, api.pullDetail), ConflictStats(0.0, 0));
    var reviewers := ValueOr(AvgReviewersPerPR(api.pulls(ReviewersCall), cfg.start, cfg.end, api.reviews), ReviewStats(0.0, 0));
    var size := ValueOr(MainSize(api.ref("heads/" + cfg.defaultBranch), api.tree), BranchSize(0, 0));
    RepoMetrics(
      repo,
      contributors.count,
      contributors.usernames,
      MapOrNil(CommitDistribution(api.commits(DistributionCall))),
      conflicts.rate,
      ValueOr(AvgMergeTime(api.closedPulls, cfg.start, cfg.end), 0.0),
      reviewers.avgReviewers,
      reviewers.crossTeam,
      MapOrNil(ChurnByFile(api.commits(ChurnByFileCall), api.commitDetail(ChurnByFileCall))),
      MapOrNil(ChurnByDir(api.commits(ChurnByDirCall), api.commitDetail(ChurnByDirCall))),
      ValueOr(IssuesCreatedBefore(api.integrationIssues, cfg.end), 0),
      ValueOr(RevertRate(api.commits(RevertCall)), 0.0),
      size.bytes,
      size.files,
      ValueOr(SuccessfulReruns(cfg.workflowId, api.runs(RerunsCall)), 0),
      conflicts.count,
      ValueOr(IssuesCreatedBefore(api.rollbackIssues, cfg.end), 0),
      ValueOr(WorkflowFailures(cfg.workflowId, api.runs(FailuresCall)), 0),
      ValueOr(SuccessfulDeploys(cfg.workflowId, api.runs(DeploysCall)), 0),
      ValueOr(AvgThreadDepth(api.issues, api.pulls(ThreadCall), cfg.start, cfg.end, api.issueComments, api.pullComments), 0.0))
  }

  /**
   Each commit metric fails on its own: a failed walk of its commit
   listing leaves its fields at their zero value, nil for a map, whatever
   the walks of the other commit metrics saw.
   */
  lemma CommitMetricsOnFailure(cfg: Config, repo: string, api: RepoApi)
    ensures var m := Measure(cfg, repo, api);
      && (!AllFetched(api.commits(ContributorsCall)) ==> m.uniqueContributors == 0 && m.contributorsList == [])
      && (m.commitDist == None <==> !AllFetched(api.commits(DistributionCall)))
      && (m.churnByFile == None <==> !AllFetched(api.commits(ChurnByFileCall)))
      && (m.churnByDir == None <==> !AllFetched(api.commits(ChurnByDirCall)))
      && (!AllFetched(api.commits(RevertCall)) ==> m.revertRate == 0.0)
  {
  }

  /**
   The pull-request and issue metrics fail on their own: a failed walk of
   a metric's listing leaves that metric's fields at 0. The thread depth
   walks both the issues and the pull requests and is 0 when either fails;
   the cross-team count is always 0.
   */
  lemma ListingMetricsOnFailure(cfg: Config, repo: string, api: RepoApi)
    ensures var m := Measure(cfg, repo, api);
      && (!AllFetched(api.pulls(ConflictCall)) ==> m.conflictRate == 0.0 && m.conflictMergesCount == 0)
      && (!AllFetched(api.pulls(ReviewersCall)) ==> m.avgReviewersPerPR == 0.0)
      && (!AllFetched(api.closedPulls) ==> m.avgMergeTimeDays == 0.0)
      && (!AllFetched(api.integrationIssues) ==> m.integrationIssues == 0)
      && (!AllFetched(api.rollbackIssues) ==> m.rollbackIssues == 0)
      && (!AllFetched(api.issues) || !AllFetched(api.pulls(ThreadCall)) ==> m.avgThreadDepth == 0.0)
      && m.crossTeamReviews == 0
  {
  }

  /**
   A failed ref or tree fetch leaves the branch size and file count at 0,
   and a run metric whose walk fails, or whose workflow id does not parse,
   is 0; an id that does not parse zeroes all three run metrics.
   */
  lemma SizeAndRunMetricsOnFailure(cfg: Config, repo: string, api: RepoApi)
    ensures var m := Measure(cfg, repo, api);
      && (MainSize(api.ref("heads/" + cfg.defaultBranch), api.tree).Err? ==>
            m.mainBranchSizeBytes == 0 && m.mainFileCount == 0)
      && (WorkflowRuns(cfg.workflowId, api.runs(RerunsCall)).Err? ==> m.successfulReruns == 0)
      && (WorkflowRuns(cfg.workflowId, api.runs(FailuresCall)).Err? ==> m.workflowFailures == 0)
      && (WorkflowRuns(cfg.workflowId, api.runs(DeploysCall)).Err? ==> m.successfulDeploys == 0)
      && (ParseInt64(cfg.workflowId).None? ==>
            m.successfulReruns == 0 && m.workflowFailures == 0 && m.successfulDeploys == 0)
  {
  }

  /**
   Each commit metric that succeeds sets its fields to what it computed
   over its own walk of the commits.
   */
  lemma CommitMetricsOnSuccess(cfg: Config, repo: string, api: RepoApi)
    ensures var m := Measure(cfg, repo, api);
      var contributors := UniqueContributors(api.commits(ContributorsCall));
      var dist := CommitDistribution(api.commits(DistributionCall));
      var byFile := ChurnByFile(api.commits(ChurnByFileCall), api.commitDetail(ChurnByFileCall));
      var byDir := ChurnByDir(api.commits(ChurnByDirCall), api.commitDetail(ChurnByDirCall));
      var revertRate := RevertRate(api.commits(RevertCall));
      && (contributors.Ok? ==>
            m.uniqueContributors == contributors.value.count && m.contributorsList == contributors.value.usernames)
      && (dist.Ok? ==> m.commitDist == Some(dist.value))
      && (byFile.Ok? ==> m.churnByFile == Some(byFile.value))
      && (byDir.Ok? ==> m.churnByDir == Some(byDir.value))
      && (revertRate.Ok? ==> m.revertRate == revertRate.value)
  {
  }

  /**
   Each pull-request and issue metric that succeeds sets its fields to what
   it computed over its own listings.
   */
  lemma ListingMetricsOnSuccess(cfg: Config, repo: string, api: RepoApi)
    ensures var m := Measure(cfg, repo, api);
      var conflicts := ConflictRateAndCount(api.pulls(ConflictCall), cfg.start, cfg.end, api.pullDetail);
      var mergeTime := AvgMergeTime(api.closedPulls, cfg.start, cfg.end);
      var reviewers := AvgReviewersPerPR(api.pulls(ReviewersCall), cfg.start, cfg.end, api.reviews);
      var integration := IssuesCreatedBefore(api.integrationIssues, cfg.end);
      var rollback := IssuesCreatedBefore(api.rollbackIssues, cfg.end);
      var depth := AvgThreadDepth(api.issues, api.pulls(ThreadCall), cfg.start, cfg.end, api.issueComments, api.pullComments);
      && (conflicts.Ok? ==> m.conflictRate == conflicts.value.rate && m.conflictMergesCount == conflicts.value.count)
      && (mergeTime.Ok? ==> m.avgMergeTimeDays == mergeTime.value)
      && (reviewers.Ok? ==> m.avgReviewersPerPR == reviewers.value.avgReviewers)
      && (integration.Ok? ==> m.integrationIssues == integration.value)
      && (rollback.Ok? ==> m.rollbackIssues == rollback.value)
      && (depth.Ok? ==> m.avgThreadDepth == depth.value)
  {
  }

  /**
   A branch size that is fetched and each run metric that succeeds set
   their fields to what they computed, each run metric over its own walk.
   */
  lemma SizeAndRunMetricsOnSuccess(cfg: Config, repo: string, api: RepoApi)
    ensures var m := Measure(cfg, repo, api);
      var size := MainSize(api.ref("heads/" + cfg.defaultBranch), api.tree);
      var reruns := SuccessfulReruns(cfg.workflowId, api.runs(RerunsCall));
      var failures := WorkflowFailures(cfg.workflowId, api.runs(FailuresCall));
      var deploys := SuccessfulDeploys(cfg.workflowId, api.runs(DeploysCall));
      && (size.Ok? ==> m.mainBranchSizeBytes == size.value.bytes && m.mainFileCount == size.value.files)
      && (reruns.Ok? ==> m.successfulReruns == reruns.value)
      && (failures.Ok? ==> m.workflowFailures == failures.value)
      && (deploys.Ok? ==> m.successfulDeploys == deploys.value)
  {
  }

  /**
   When the contributor walk and the distribution walk see the same pages,
   the record has as many contributors as the distribution has authors.
   Each walks the listing on its own, so without that the two can differ.
   */
  lemma ContributorsMatchDistribution(cfg: Config, repo: string, api: RepoApi)
    requires api.commits(DistributionCall) == api.commits(ContributorsCall)
    requires AllFetched(api.commits(ContributorsCall))
    ensures var m := Measure(cfg, repo, api);
      m.uniqueContributors == |m.contributorsList| == |m.commitDist.value|
  {
    var l := api.commits(ContributorsCall);
    ContributorsAreDistributionKeys(l);
    var names := UniqueContributors(l).value.usernames;
    var keys := CommitDistribution(l).value.Keys;
    assert (set u | u in names) == keys;
    DistinctCardinality(names);
  }

  /**
   When the three run walks see the same runs, the record holds no more
   failures, first-try deploys and re-runs together than there are runs.
   */
  lemma RunFieldsFit(cfg: Config, repo: string, api: RepoApi)
    requires WorkflowRuns(cfg.workflowId, api.runs(FailuresCall)).Ok?
    requires WorkflowRuns(cfg.workflowId, api.runs(RerunsCall)) == WorkflowRuns(cfg.workflowId, api.runs(FailuresCall))
    requires WorkflowRuns(cfg.workflowId, api.runs(DeploysCall)) == WorkflowRuns(cfg.workflowId, api.runs(FailuresCall))
    ensures var m := Measure(cfg, repo, api);
      m.successfulReruns + m.workflowFailures + m.successfulDeploys <= |WorkflowRuns(cfg.workflowId, api.runs(FailuresCall)).value|
  {
    var rs := WorkflowRuns(cfg.workflowId, api.runs(FailuresCall)).value;
    DisjointFiltersFit(rs, IsFailureRun, IsFirstTryDeploy, IsRerun);
  }

  /** A sequence without repetitions has as many elements as its set. */
  lemma {:induction false} DistinctCardinality(xs: seq<string>)
    requires forall i, j :: 0 <= i < j < |xs| ==> xs[i] != xs[j]
    ensures |set x | x in xs| == |xs|
    decreases |xs|
  {
    if |xs| > 0 {
      var init, last := xs[..|xs| - 1], xs[|xs| - 1];
      DistinctCardinality(init);
      assert (set x | x in xs) == (set x | x in init) + {last};
      assert last !in (set x | x in init);
    }
  }

  /** The record with the fields computed from the commit listing cleared. */
  function WithoutCommitFields(m: RepoMetrics): RepoMetrics
  {
    m.(uniqueContributors := 0, contributorsList := [], commitDist := None,
       churnByFile := None, churnByDir := None, revertRate := 0.0)
  }

  /** The record with the fields computed from the workflow runs cleared. */
  function WithoutRunFields(m: RepoMetrics): RepoMetrics
  {
    m.(successfulReruns := 0, workflowFailures := 0, successfulDeploys := 0)
  }

  /** What the commit listing and commit details return touches no field outside the commit metrics. */
  lemma CommitFieldsIsolated(cfg: Config, repo: string, api: RepoApi,
                             commits: CommitCall -> Listing<Commit>, commitDetail: CommitCall -> string -> Option<CommitDetail>)
    ensures WithoutCommitFields(Measure(cfg, repo, api))
         == WithoutCommitFields(Measure(cfg, repo, api.(commits := commits, commitDetail := commitDetail)))
  {
  }

  /**
   The workflow id touches no field outside the three run metrics, and one
   that does not parse leaves those three at 0 while the rest of the
   record is still computed.
   */
  lemma WorkflowIdIsolated(cfg: Config, repo: string, api: RepoApi, workflowId: string)
    ensures WithoutRunFields(Measure(cfg, repo, api))
         == WithoutRunFields(Measure(cfg.(workflowId := workflowId), repo, api))
    ensures ParseInt64(cfg.workflowId).None? ==>
      Measure(cfg, repo, api) == WithoutRunFields(Measure(cfg, repo, api))
  {
  }

  /** `allRepos` of `Check`: the repository lists of the areas, concatenated in the order `areas` visits them. */
  function AllRepos(projects: map<string, seq<string>>, areas: seq<string>): (r: seq<string>)
    requires forall i :: 0 <= i < |areas| ==> areas[i] in projects
    ensures forall repo :: repo in r <==> exists i :: 0 <= i < |areas| && repo in projects[areas[i]]
  {
    if |areas| == 0 then [] else AllRepos(projects, areas[..|areas| - 1]) + projects[areas[|areas| - 1]]
  }

  /** The areas of `projects` listed once each, in some order: how Go ranges over the map. */
  ghost predicate EnumeratesKeys(projects: map<string, seq<string>>, areas: seq<string>)
  {
    && (forall a :: a in areas <==> a in projects)
    && (forall i, j :: 0 <= i < j < |areas| ==> areas[i] != areas[j])
  }

  /** For each area among `keys`, what `w` measures of its repository list. */
  ghost function TallyAreas(projects: map<string, seq<string>>, keys: set<string>, w: seq<string> -> nat): map<string, nat>
  {
    map a | a in projects && a in keys :: w(projects[a])
  }

  /**
   Any measure `w` that adds over concatenation measures `allRepos` as the
   sum over the areas, whatever order the areas were visited in.
   */
  lemma {:induction false} AllReposTally(projects: map<string, seq<string>>, areas: seq<string>, w: seq<string> -> nat)
    requires forall i :: 0 <= i < |areas| ==> areas[i] in projects
    requires forall i, j :: 0 <= i < j < |areas| ==> areas[i] != areas[j]
    requires w([]) == 0
    requires forall xs, ys :: w(xs + ys) == w(xs) + w(ys)
    ensures w(AllRepos(projects, areas)) == SumValues(TallyAreas(projects, (set a | a in areas), w))
    decreases |areas|
  {
    if |areas| == 0 {
      assert TallyAreas(projects, {}, w) == map[];
    } else {
      var init, a := areas[..|areas| - 1], areas[|areas| - 1];
      AllReposTally(projects, init, w);
      var before := TallyAreas(projects, (set b | b in init), w);
      assert (set b | b in areas) == (set b | b in init) + {a};
      assert a !in before;
      assert TallyAreas(projects, (set b | b in areas), w) == before[a := w(projects[a])];
      SumValuesUpdate(before, a, w(projects[a]));
    }
  }

  /** `Check` keeps one record per listed repository: as many as the lists of all areas hold together. */
  lemma AllReposLength(projects: map<string, seq<string>>, areas: seq<string>)
    requires EnumeratesKeys(projects, areas)
    ensures |AllRepos(projects, areas)| == SumValues(map a | a in projects :: |projects[a]|)
  {
    AllReposTally(projects, areas, (xs: seq<string>) => |xs|);
    assert TallyAreas(projects, (set a | a in areas), (xs: seq<string>) => |xs|) == map a | a in projects :: |projects[a]|;
  }

  /** Each repository appears in `allRepos` as often as the lists of all areas name it, in whatever order the areas are visited. */
  lemma AllReposOccurrences(projects: map<string, seq<string>>, areas: seq<string>, repo: string)
    requires EnumeratesKeys(projects, areas)
    ensures multiset(AllRepos(projects, areas))[repo] == SumValues(map a | a in projects :: multiset(projects[a])[repo])
  {
    var w := (xs: seq<string>) => multiset(xs)[repo];
    AllReposTally(projects, areas, w);
    assert TallyAreas(projects, (set a | a in areas), w) == map a | a in projects :: multiset(projects[a])[repo];
  }

  /** Two visiting orders of the areas give the same repositories, up to order. */
  lemma AllReposOrderIrrelevant(projects: map<string, seq<string>>, areas1: seq<string>, areas2: seq<string>)
    requires EnumeratesKeys(projects, areas1) && EnumeratesKeys(projects, areas2)
    ensures multiset(AllRepos(projects, areas1)) == multiset(AllRepos(projects, areas2))
  {
    forall repo
      ensures multiset(AllRepos(projects, areas1))[repo] == multiset(AllRepos(projects, areas2))[repo]
    {
      AllReposOccurrences(projects, areas1, repo);
      AllReposOccurrences(projects, areas2, repo);
    }
  }

  /** The loop of `Check` that lists the repositories of every area, area after area. */
  method ListRepos(projects: map<string, seq<string>>, areas: seq<string>) returns (allRepos: seq<string>)
    requires forall i :: 0 <= i < |areas| ==> areas[i] in projects
    ensures allRepos == AllRepos(projects, areas)
  {
    allRepos := [];
    var k := 0;
    while k < |areas|
      invariant 0 <= k <= |areas|
      invariant allRepos == AllRepos(projects, areas[..k])
    {
      assert areas[..k + 1][..k] == areas[..k];
      allRepos := allRepos + projects[areas[k]];
      k := k + 1;
    }
    assert areas[..k] == areas;
  }

  /** The loop of `Check` that measures each repository in turn, with `measure` standing for the metric calls. */
  method MeasureEach(repos: seq<string>, measure: string -> RepoMetrics) returns (metrics: seq<RepoMetrics>)
    ensures |metrics| == |repos|
    ensures forall i :: 0 <= i < |repos| ==> metrics[i] == measure(repos[i])
  {
    metrics := [];
    var i := 0;
    while i < |repos|
      invariant 0 <= i <= |repos|
      invariant |metrics| == i
      invariant forall j :: 0 <= j < i ==> metrics[j] == measure(repos[j])
    {
      metrics := metrics + [measure(repos[i])];
      i := i + 1;
    }
  }

  /**
   `Check`, with the repositories measured one after the other: one record
   per entry of `allRepos`, in order, each measured against its own
   repository's answers. It never reports an error.
   */
  method Check(cfg: Config, areas: seq<string>, api: string -> RepoApi) returns (metrics: seq<RepoMetrics>, err: Option<Error>)
    requires EnumeratesKeys(cfg.projects, areas)
    ensures err == None
    ensures var allRepos := AllRepos(cfg.projects, areas);
      && |metrics| == |allRepos|
      && (forall i :: 0 <= i < |metrics| ==> metrics[i].repo == allRepos[i])
      && (forall i :: 0 <= i < |metrics| ==> metrics[i] == Measure(cfg, allRepos[i], api(allRepos[i])))
  {
    var allRepos := ListRepos(cfg.projects, areas);
    metrics := MeasureEach(allRepos, (repo: string) => Measure(cfg, repo, api(repo)));
    err := None;
  }

  /** A repository listed under two areas is measured twice: `Check` does not remove duplicates. */
  lemma DuplicatesKept(projects: map<string, seq<string>>, areas: seq<string>, a1: string, a2: string, repo: string)
    requires EnumeratesKeys(projects, areas)
    requires a1 in projects && a2 in projects && a1 != a2
    requires repo in projects[a1] && repo in projects[a2]
    ensures multiset(AllRepos(projects, areas))[repo] >= 2
  {
    var counts := map a | a in projects :: multiset(projects[a])[repo];
    AllReposOccurrences(projects, areas, repo);
    SumValuesRemove(counts, a1);
    SumValuesRemove(counts - {a1}, a2);
  }
}
