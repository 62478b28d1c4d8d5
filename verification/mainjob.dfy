/**
 The report job of main.go: for one repository of an area, the size of the
 branch, the workflow looked up by name, the attempts of its successful
 runs, the closed pull requests left in conflict and the closed rollback
 issues, gathered step by step until the first error.
 */
module MainJob {
  import opened Common
  import opened Folds
  import opened Text
  import opened Ratios
  import opened GitHub
  import opened Paging
  import opened CommitMetrics
  import ActionMetrics
  import MergeMetrics

  /** The global settings of the job. */
  datatype Settings = Settings(branch: string, workflowName: string)

  const DefaultSettings := Settings("main", "2 - [DEV] Build & Deploy")

  /**
   What the hosting platform answers for one repository during the job.
   Calls with the same endpoint and options see the same pages.
   */
  datatype MainApi = MainApi(
    ref: string -> Result<string>,                   // the head commit of a branch reference
    tree: string -> Result<seq<TreeEntry>>,          // the recursive tree of a commit
    workflows: Result<seq<Workflow>>,                // the first page of the repository's workflows
    runs: int -> Listing<WorkflowRun>,               // the completed runs of a workflow since the start
    closedPulls: Listing<PullRequest>,               // closed pull requests, most recently updated first
    pullDetail: int -> Option<PullRequestDetail>,    // one pull request with its mergeability
    closedIssues: Listing<Issue>)                    // closed issues updated since the start

  // ---------------------------------------------------------------- getBranchSize

  /** A blob entry with a size: the only entries the branch size adds up. */
  predicate SizedBlob(e: TreeEntry)
  {
    IsBlob(e) && e.size.Some?
  }

  /** The tree of the configured branch: the ref fetch, then the tree fetch, the first error reported. */
  function BranchTree(settings: Settings, api: MainApi): (r: Result<seq<TreeEntry>>)
    ensures r.Ok? <==> api.ref("heads/" + settings.branch).Ok? && api.tree(api.ref("heads/" + settings.branch).value).Ok?
  {
    var ref := api.ref("heads/" + settings.branch);
    if ref.Err? then Err(ref.error) else api.tree(ref.value)
  }

  /**
   `getBranchSize`: resolve the branch head, fetch its recursive tree and
   add the sizes of the blobs that report one. A failed ref or tree fetch
   is reported.
   */
  method BranchSize(settings: Settings, api: MainApi) returns (r: Result<int>)
    ensures api.ref("heads/" + settings.branch).Err? ==> r == Err(api.ref("heads/" + settings.branch).error)
    ensures var ref := api.ref("heads/" + settings.branch);
      ref.Ok? && api.tree(ref.value).Err? ==> r == Err(api.tree(ref.value).error)
    ensures var ref := api.ref("heads/" + settings.branch);
      ref.Ok? && api.tree(ref.value).Ok? ==>
        r == Ok(SumOf(Filter(api.tree(ref.value).value, SizedBlob), SizeOrZero))
    ensures r.Ok? <==> BranchTree(settings, api).Ok?
    ensures r.Err? ==> r.error == BranchTree(settings, api).error
    ensures r.Ok? ==> r.value == SumOf(Filter(BranchTree(settings, api).value, SizedBlob), SizeOrZero)
  {
    var ref := api.ref("heads/" + settings.branch);
    if ref.Err? {
      return Err(ref.error);
    }
    var tree := api.tree(ref.value);
    if tree.Err? {
      return Err(tree.error);
    }
    var size := SumWhere(tree.value, SizedBlob, SizeOrZero);
    return Ok(size);
  }

  /** A blob without a size adds 0, so summing only the sized blobs is summing every blob. */
  lemma {:induction false} SizedBlobsSum(entries: seq<TreeEntry>)
    ensures SumOf(Filter(entries, SizedBlob), SizeOrZero) == SumOf(Filter(entries, IsBlob), SizeOrZero)
    decreases |entries|
  {
    if |entries| > 0 {
      var init, e := entries[..|entries| - 1], entries[|entries| - 1];
      assert entries == init + [e];
      SizedBlobsSum(init);
      FilterSnoc(init, e, SizedBlob);
      FilterSnoc(init, e, IsBlob);
      SumOfAppend(Filter(init, SizedBlob), if SizedBlob(e) then [e] else [], SizeOrZero);
      SumOfAppend(Filter(init, IsBlob), if IsBlob(e) then [e] else [], SizeOrZero);
    }
  }

  /** The job's branch size is the byte count `GetMainSize` reports for the same tree. */
  lemma BranchSizeIsMainSize(ref: Result<string>, tree: string -> Result<seq<TreeEntry>>)
    requires MainSize(ref, tree).Ok?
    ensures SumOf(Filter(tree(ref.value).value, SizedBlob), SizeOrZero) == MainSize(ref, tree).value.bytes
  {
    SizedBlobsSum(tree(ref.value).value);
  }

  // ---------------------------------------------------------------- getWorkflowID

  /** The workflow is named exactly `name`. */
  predicate NamedAs(wf: Workflow, name: string)
  {
    wf.name == Some(name)
  }

  /**
   `getWorkflowID`: the id of the first listed workflow named exactly
   `name`; an error naming the workflow and the repository when none is.
   A failed listing is reported.
   */
  function WorkflowId(workflows: Result<seq<Workflow>>, name: string, repo: string): (r: Result<int>)
    ensures workflows.Err? ==> r == Err(workflows.error)
    ensures workflows.Ok? ==>
      var ws := workflows.value;
      && (r.Ok? <==> exists i :: 0 <= i < |ws| && NamedAs(ws[i], name))
      && (r.Err? ==> r.error == WorkflowNotFound(name, repo))
      && (r.Ok? ==> exists i :: 0 <= i < |ws| && NamedAs(ws[i], name) && r.value == ws[i].id
                             && forall j :: 0 <= j < i ==> !NamedAs(ws[j], name))
  {
    match workflows
    case Err(e) => Err(e)
    case Ok(ws) =>
      var i := FirstNamed(ws, name);
      if i < |ws| then Ok(ws[i].id) else Err(WorkflowNotFound(name, repo))
  }

  /** The index of the first workflow named `name`, or `|ws|` when there is none. */
  function FirstNamed(ws: seq<Workflow>, name: string): (i: nat)
    ensures i <= |ws|
    ensures i < |ws| ==> NamedAs(ws[i], name)
    ensures forall j :: 0 <= j < i ==> !NamedAs(ws[j], name)
  {
    if |ws| == 0 then 0
    else if NamedAs(ws[0], name) then 0
    else 1 + FirstNamed(ws[1..], name)
  }

  // ---------------------------------------------------------------- getAverageAndTotalRunAttempts

  /** The attempts of the successful runs of the workflow. */
  datatype RunAttempts = RunAttempts(avg: real, totalRuns: nat, totalAttempts: int)

  predicate Succeeded(run: WorkflowRun)
  {
    run.conclusion == Some("success")
  }

  /** The attempt number of a run, 1 when it reports none. */
  function AttemptOrOne(run: WorkflowRun): int
  {
    run.runAttempt.GetOr(1)
  }

  /**
   `getAverageAndTotalRunAttempts`: over the successful runs, how many
   there are, how many attempts they took together and the mean. A failed
   fetch and an empty result both give all zeros; the error is swallowed.
   */
  function AverageAndTotalRunAttempts(l: Listing<WorkflowRun>): (r: RunAttempts)
    ensures !AllFetched(l) ==> r == RunAttempts(0.0, 0, 0)
    ensures AllFetched(l) ==>
      var successes := Filter(Items(l), Succeeded);
      && r.totalRuns == |successes|
      && r.totalAttempts == (if |successes| == 0 then 0 else SumOf(successes, AttemptOrOne))
      && r.avg == Mean(r.totalAttempts, r.totalRuns)
  {
    match Walk(l)
    case Err(_) => RunAttempts(0.0, 0, 0)
    case Ok(runs) =>
      var successes := Filter(runs, Succeeded);
      if |successes| == 0 then RunAttempts(0.0, 0, 0)
      else
        var total := SumOf(successes, AttemptOrOne);
        RunAttempts(Mean(total, |successes|), |successes|, total)
  }

  /**
   The job and the analyzer read a missing attempt number alike: when no
   run reports an attempt below 1, the successful runs the job counts are
   exactly the analyzer's first-try deploys and re-runs together.
   */
  lemma {:induction false} SuccessesAreDeploysAndReruns(rs: seq<WorkflowRun>)
    requires forall i :: 0 <= i < |rs| ==> AttemptOrOne(rs[i]) >= 1
    ensures |Filter(rs, ActionMetrics.IsFirstTryDeploy)| + |Filter(rs, MergeMetrics.IsRerun)| == |Filter(rs, Succeeded)|
    decreases |rs|
  {
    if |rs| > 0 {
      var init, run := rs[..|rs| - 1], rs[|rs| - 1];
      assert rs == init + [run];
      assert AttemptOrOne(run) >= 1;
      SuccessesAreDeploysAndReruns(init);
      FilterSnoc(init, run, ActionMetrics.IsFirstTryDeploy);
      FilterSnoc(init, run, MergeMetrics.IsRerun);
      FilterSnoc(init, run, Succeeded);
    }
  }

  /**
   When no run reports an attempt number below 1, there are at least as
   many attempts as successful runs, so the re-run count of the report is
   never negative.
   */
  lemma AttemptsCoverRuns(l: Listing<WorkflowRun>)
    requires forall run :: run in Items(l) && run.runAttempt.Some? ==> run.runAttempt.value >= 1
    ensures AverageAndTotalRunAttempts(l).totalAttempts >= AverageAndTotalRunAttempts(l).totalRuns
  {
    if AllFetched(l) {
      var successes := Filter(Items(l), Succeeded);
      FilterMultiset(Items(l), Succeeded);
      forall run | run in successes ensures AttemptOrOne(run) >= 1 {
        assert multiset(successes)[run] > 0;
      }
      SumOfAtLeast(successes, AttemptOrOne, 1);
    }
  }

  // ---------------------------------------------------------------- countMergeConflicts

  /**
   The pull request was closed no earlier than `since`, and its detail
   fetch reports it as not mergeable with a "dirty" mergeable state.
   */
  predicate MergeConflict(pr: PullRequest, since: Instant, detail: int -> Option<PullRequestDetail>)
  {
    && pr.closedAt.Some? && pr.closedAt.value >= since
    && detail(pr.number).Some?
    && detail(pr.number).value.mergeable == Some(false)
    && detail(pr.number).value.mergeableState == Some("dirty")
  }

  function ConflictedSince(since: Instant, detail: int -> Option<PullRequestDetail>): PullRequest -> bool
  {
    (pr: PullRequest) => MergeConflict(pr, since, detail)
  }

  /**
   `countMergeConflicts`: how many of the closed pull requests were closed
   since the start and were left in conflict. A failed detail fetch counts
   the pull request as not conflicting; a failed listing is reported.
   */
  method CountMergeConflicts(l: Listing<PullRequest>, since: Instant, detail: int -> Option<PullRequestDetail>)
    returns (r: Result<nat>)
    ensures r.Err? <==> !AllFetched(l)
    ensures r.Err? ==> FailedWith(l, r.error)
    ensures r.Ok? ==> r.value == |Filter(Items(l), ConflictedSince(since, detail))|
  {
    r := CountByPages(l, ConflictedSince(since, detail));
  }

  /**
   A pull request the job counts as conflicting is one `GetConflictRateAndCount`
   counts as conflicting too, once its window is set aside: the job only
   adds the closing date and the "dirty" state to its test.
   */
  lemma {:induction false} MergeConflictsAreConflicts(prs: seq<PullRequest>, since: Instant, detail: int -> Option<PullRequestDetail>)
    ensures |Filter(prs, ConflictedSince(since, detail))| <= |Filter(prs, Conflicting(detail))|
    decreases |prs|
  {
    if |prs| > 0 {
      var init, pr := prs[..|prs| - 1], prs[|prs| - 1];
      assert prs == init + [pr];
      MergeConflictsAreConflicts(init, since, detail);
      FilterSnoc(init, pr, ConflictedSince(since, detail));
      FilterSnoc(init, pr, Conflicting(detail));
    }
  }

  // ---------------------------------------------------------------- countRollbackIssues

  /** The label has a name that contains "rollback" once lower-cased. */
  predicate RollbackLabel(lbl: Label)
  {
    lbl.name.Some? && Contains(ToLower(lbl.name.value), "rollback")
  }

  /** The issue was closed no earlier than `since` and carries a rollback label. */
  predicate RollbackSince(issue: Issue, since: Instant)
  {
    issue.closedAt.Some? && issue.closedAt.value >= since && AnyRollbackLabel(issue.labels)
  }

  /** Some label, scanning from the first, is a rollback label. */
  predicate AnyRollbackLabel(labels: seq<Label>)
  {
    |labels| > 0 && (RollbackLabel(labels[0]) || AnyRollbackLabel(labels[1..]))
  }

  lemma {:induction false} AnyRollbackLabelExists(labels: seq<Label>)
    ensures AnyRollbackLabel(labels) <==> exists i :: 0 <= i < |labels| && RollbackLabel(labels[i])
  {
    if |labels| > 0 {
      AnyRollbackLabelExists(labels[1..]);
      assert forall i :: 0 < i < |labels| ==> labels[1..][i - 1] == labels[i];
    }
  }

  function ClosedRollback(since: Instant): Issue -> bool
  {
    (issue: Issue) => RollbackSince(issue, since)
  }

  /** The label loop of `countRollbackIssues`: stop at the first rollback label. */
  method HasRollbackLabel(labels: seq<Label>) returns (found: bool)
    ensures found <==> AnyRollbackLabel(labels)
  {
    found := false;
    var i := 0;
    while i < |labels|
      invariant 0 <= i <= |labels|
      invariant !found
      invariant AnyRollbackLabel(labels) == AnyRollbackLabel(labels[i..])
    {
      assert labels[i..][1..] == labels[i + 1..];
      var name := labels[i].name;
      if name.Some? && Contains(ToLower(name.value), "rollback") {
        found := true;
        break;
      }
      i := i + 1;
    }
  }

  /**
   `countRollbackIssues`: how many of the closed issues were closed since
   the start and carry a rollback label, each issue counted once however
   many such labels it has. A failed listing is reported.
   */
  method CountRollbackIssues(l: Listing<Issue>, since: Instant) returns (r: Result<nat>)
    ensures r.Err? <==> !AllFetched(l)
    ensures r.Err? ==> FailedWith(l, r.error)
    ensures r.Ok? ==> r.value == |Filter(Items(l), ClosedRollback(since))|
  {
    r := CountByPages(l, ClosedRollback(since));
  }

  // ---------------------------------------------------------------- processRepo

  /** The outcome of one repository; `err` is `None` when every step succeeded. */
  datatype RepoResult = RepoResult(
    area: string,
    repo: string,
    branchSizeBytes: int,
    avgAttempts: real,
    totalRuns: nat,
    totalAttempts: int,
    conflicts: nat,
    rollbacks: nat,
    err: Option<Error>)

  /** The branch size and the workflow id succeeded, so the job goes on to the run attempts. */
  predicate FindsWorkflow(settings: Settings, repo: string, api: MainApi)
  {
    BranchTree(settings, api).Ok? && WorkflowId(api.workflows, settings.workflowName, repo).Ok?
  }

  /**
   `processRepo`: branch size, workflow id, run attempts, merge conflicts
   and rollback issues, in that order. The first step that fails sets the
   error and ends the job: the fields of the steps before it keep their
   values and the later ones stay 0.
   */
  method ProcessRepo(settings: Settings, area: string, repo: string, since: Instant, api: MainApi)
    returns (res: RepoResult)
    ensures res.area == area && res.repo == repo
    // the job succeeds exactly when every step does
    ensures res.err.None? <==>
      FindsWorkflow(settings, repo, api) && AllFetched(api.closedPulls) && AllFetched(api.closedIssues)
    // a failed ref or tree fetch: that error, and nothing measured
    ensures var ref := api.ref("heads/" + settings.branch);
      ref.Err? ==> res == RepoResult(area, repo, 0, 0.0, 0, 0, 0, 0, Some(ref.error))
    ensures var ref := api.ref("heads/" + settings.branch);
      ref.Ok? && api.tree(ref.value).Err? ==>
        res == RepoResult(area, repo, 0, 0.0, 0, 0, 0, 0, Some(api.tree(ref.value).error))
    // the branch size, once the tree is fetched
    ensures BranchTree(settings, api).Ok? ==>
      res.branchSizeBytes == SumOf(Filter(BranchTree(settings, api).value, SizedBlob), SizeOrZero)
    // a missing workflow: its error, and no later step runs
    ensures WorkflowId(api.workflows, settings.workflowName, repo).Err? ==>
      && res.err.Some? && res.avgAttempts == 0.0 && res.totalRuns == 0 && res.totalAttempts == 0
      && res.conflicts == 0 && res.rollbacks == 0
    ensures BranchTree(settings, api).Ok? && WorkflowId(api.workflows, settings.workflowName, repo).Err? ==>
      res.err == Some(WorkflowId(api.workflows, settings.workflowName, repo).error)
    // the run attempts, once the workflow is found
    ensures FindsWorkflow(settings, repo, api) ==>
      var attempts := AverageAndTotalRunAttempts(api.runs(WorkflowId(api.workflows, settings.workflowName, repo).value));
      res.avgAttempts == attempts.avg && res.totalRuns == attempts.totalRuns && res.totalAttempts == attempts.totalAttempts
    // a failed pull-request walk: its first error, and no rollback count
    ensures !AllFetched(api.closedPulls) ==> res.err.Some? && res.conflicts == 0 && res.rollbacks == 0
    ensures FindsWorkflow(settings, repo, api) && !AllFetched(api.closedPulls) ==>
      FailedWith(api.closedPulls, res.err.value)
    // the conflicts, once the pull requests are walked
    ensures FindsWorkflow(settings, repo, api) && AllFetched(api.closedPulls) ==>
      res.conflicts == |Filter(Items(api.closedPulls), ConflictedSince(since, api.pullDetail))|
    // a failed issue walk: its first error
    ensures !AllFetched(api.closedIssues) ==> res.err.Some? && res.rollbacks == 0
    ensures FindsWorkflow(settings, repo, api) && AllFetched(api.closedPulls) && !AllFetched(api.closedIssues) ==>
      FailedWith(api.closedIssues, res.err.value)
    // the rollbacks, when every step succeeds
    ensures res.err.None? ==> res.rollbacks == |Filter(Items(api.closedIssues), ClosedRollback(since))|
  {
    res := RepoResult(area, repo, 0, 0.0, 0, 0, 0, 0, None);
    var size := BranchSize(settings, api);
    if size.Err? {
      return res.(err := Some(size.error));
    }
    res := res.(branchSizeBytes := size.value);
    var workflowId := WorkflowId(api.workflows, settings.workflowName, repo);
    if workflowId.Err? {
      return res.(err := Some(workflowId.error));
    }
    var attempts := AverageAndTotalRunAttempts(api.runs(workflowId.value));
    res := res.(avgAttempts := attempts.avg, totalRuns := attempts.totalRuns, totalAttempts := attempts.totalAttempts);
    var conflicts := CountMergeConflicts(api.closedPulls, since, api.pullDetail);
    if conflicts.Err? {
      return res.(err := Some(conflicts.error));
    }
    res := res.(conflicts := conflicts.value);
    var rollbacks := CountRollbackIssues(api.closedIssues, since);
    if rollbacks.Err? {
      return res.(err := Some(rollbacks.error));
    }
    res := res.(rollbacks := rollbacks.value);
  }
}
