/**
 The metrics of analyzer/merge.go: average merge time, reviewers per pull
 request, successful re-runs, and the average thread depth of issues and
 pull requests. Its rollback-issue count is `ActionMetrics.IssuesCreatedBefore`.
 */
module MergeMetrics {
  import opened Common
  import opened Folds
  import opened Decimal
  import opened Ratios
  import opened GitHub
  import opened Paging
  import opened CommitMetrics
  import opened ActionMetrics

  // ---------------------------------------------------------------- GetAvgMergeTime

  /** The pull requests the average merge time looks at: created inside the window and merged. */
  function MergedInWindow(start: Instant, end: Instant): PullRequest -> bool
  {
    (pr: PullRequest) => CreatedWithin(pr, start, end) && pr.mergedAt.Some?
  }

  /** How long a merged pull request stayed open, in seconds. */
  function TimeToMerge(pr: PullRequest): int
  {
    pr.mergedAt.GetOr(pr.createdAt) - pr.createdAt
  }

  /**
   `GetAvgMergeTime`: the mean time from creation to merge, in days, of the
   pull requests created inside the window that were merged; 0 when none
   was merged. A merge recorded before the creation counts negatively, as
   Go's duration arithmetic does.
   */
  function AvgMergeTime(l: Listing<PullRequest>, start: Instant, end: Instant): (r: Result<real>)
    ensures r.Err? <==> !AllFetched(l)
    ensures r.Err? ==> FailedWith(l, r.error)
    ensures r.Ok? ==>
      var merged := Filter(Items(l), MergedInWindow(start, end));
      && r.value == MeanDays(SumOf(merged, TimeToMerge), |merged|)
      && ((forall pr :: pr in merged ==> pr.mergedAt.value >= pr.createdAt) ==> r.value >= 0.0)
  {
    match Walk(l)
    case Err(e) => Err(e)
    case Ok(prs) =>
      var merged := Filter(prs, MergedInWindow(start, end));
      assert (forall pr :: pr in merged ==> pr.mergedAt.value >= pr.createdAt) ==> SumOf(merged, TimeToMerge) >= 0 by {
        if forall pr :: pr in merged ==> pr.mergedAt.value >= pr.createdAt {
          NonNegativeSum(merged, TimeToMerge);
        }
      }
      Ok(MeanDays(SumOf(merged, TimeToMerge), |merged|))
  }

  /**
   The average merge time lies between the shortest and the longest time a
   pull request it averages stayed open, in days.
   */
  lemma MergeTimeWithin(l: Listing<PullRequest>, start: Instant, end: Instant, lo: int, hi: int)
    requires AllFetched(l)
    requires exists pr :: pr in Items(l) && MergedInWindow(start, end)(pr)
    requires forall pr :: pr in Items(l) && MergedInWindow(start, end)(pr) ==> lo <= TimeToMerge(pr) <= hi
    ensures lo as real <= AvgMergeTime(l, start, end).value * 86400.0 <= hi as real
  {
    var merged := Filter(Items(l), MergedInWindow(start, end));
    var pr :| pr in Items(l) && MergedInWindow(start, end)(pr);
    assert pr in merged;
    SumOfBounds(merged, TimeToMerge, lo, hi);
    MeanDaysWithin(SumOf(merged, TimeToMerge), |merged|, lo, hi);
  }

  lemma {:induction false} NonNegativeSum<T>(xs: seq<T>, w: T -> int)
    requires forall x :: x in xs ==> w(x) >= 0
    ensures SumOf(xs, w) >= 0
    decreases |xs|
  {
    if |xs| > 0 {
      assert forall x :: x in xs[..|xs| - 1] ==> x in xs;
      NonNegativeSum(xs[..|xs| - 1], w);
    }
  }

  // ---------------------------------------------------------------- GetAvgReviewersPerPR

  /** The distinct logins of the reviews that have a user. */
  function ReviewerSet(reviews: seq<Review>): (s: set<string>)
    ensures |s| <= |reviews|
    ensures forall login :: login in s <==> exists i :: 0 <= i < |reviews| && reviews[i].reviewer == Some(login)
  {
    if |reviews| == 0 then {}
    else
      var init, last := reviews[..|reviews| - 1], reviews[|reviews| - 1];
      var s := ReviewerSet(init);
      assert forall i :: 0 <= i < |init| ==> init[i] == reviews[i];
      if last.reviewer.Some? then
        s + {last.reviewer.value}
      else
        s
  }

  datatype ReviewStats = ReviewStats(avgReviewers: real, crossTeam: int)

  /** The in-window pull requests whose review fetch succeeded. */
  function ReviewsFetched(start: Instant, end: Instant, reviews: int -> Option<seq<Review>>): PullRequest -> bool
  {
    (pr: PullRequest) => CreatedWithin(pr, start, end) && reviews(pr.number).Some?
  }

  /** How many distinct reviewers the review fetch of `pr` names; 0 when it failed. */
  function ReviewerCount(reviews: int -> Option<seq<Review>>): PullRequest -> int
  {
    (pr: PullRequest) => if reviews(pr.number).Some? then |ReviewerSet(reviews(pr.number).value)| else 0
  }

  /**
   `GetAvgReviewersPerPR`: the mean number of distinct reviewers over the
   pull requests created inside the window whose review fetch succeeded; a
   pull request whose fetch failed is left out of both sums. The cross-team
   count is a placeholder and always 0.
   */
  function AvgReviewersPerPR(l: Listing<PullRequest>, start: Instant, end: Instant,
                             reviews: int -> Option<seq<Review>>): (r: Result<ReviewStats>)
    ensures r.Err? <==> !AllFetched(l)
    ensures r.Err? ==> FailedWith(l, r.error)
    ensures r.Ok? ==> r.value.crossTeam == 0
    ensures r.Ok? ==>
      var counted := Filter(Items(l), ReviewsFetched(start, end, reviews));
      && r.value.avgReviewers == Mean(SumOf(counted, ReviewerCount(reviews)), |counted|)
      && r.value.avgReviewers >= 0.0
  {
    match Walk(l)
    case Err(e) => Err(e)
    case Ok(prs) =>
      var counted := Filter(prs, ReviewsFetched(start, end, reviews));
      NonNegativeSum(counted, ReviewerCount(reviews));
      Ok(ReviewStats(Mean(SumOf(counted, ReviewerCount(reviews)), |counted|), 0))
  }

  /** When no fetched pull request has more than `k` reviews, no more than `k` reviewers are averaged. */
  lemma AvgReviewersBounded(l: Listing<PullRequest>, start: Instant, end: Instant,
                            reviews: int -> Option<seq<Review>>, k: nat)
    requires AllFetched(l)
    requires forall pr :: pr in Items(l) && reviews(pr.number).Some? ==> |reviews(pr.number).value| <= k
    ensures AvgReviewersPerPR(l, start, end, reviews).value.avgReviewers <= k as real
  {
    var counted := Filter(Items(l), ReviewsFetched(start, end, reviews));
    SumOfBounds(counted, ReviewerCount(reviews), 0, k);
    MeanAtMost(SumOf(counted, ReviewerCount(reviews)), |counted|, k);
  }

  // ---------------------------------------------------------------- GetSuccessfulReruns

  /**
   The run succeeded after at least one earlier attempt. A run without an
   attempt number counts as a first attempt, as in `IsFirstTryDeploy`.
   */
  predicate IsRerun(run: WorkflowRun)
  {
    run.conclusion == Some("success") && run.runAttempt.GetOr(1) > 1
  }

  /** `GetSuccessfulReruns`: how many runs of the workflow succeeded on a later attempt. */
  function SuccessfulReruns(workflowId: string, runs: int -> Listing<WorkflowRun>): (r: Result<nat>)
    ensures ParseInt64(workflowId).None? ==> r == Err(InvalidWorkflowId(workflowId))
    ensures WorkflowRuns(workflowId, runs).Err? ==> r == Err(WorkflowRuns(workflowId, runs).error)
    ensures WorkflowRuns(workflowId, runs).Ok? ==>
      var rs := WorkflowRuns(workflowId, runs).value;
      && r.Ok? && r.value <= |rs|
      && (r.value == 0 <==> forall run :: run in rs ==> !IsRerun(run))
      && (r.value == |rs| <==> forall run :: run in rs ==> IsRerun(run))
  {
    match WorkflowRuns(workflowId, runs)
    case Err(e) => Err(e)
    case Ok(rs) =>
      FilterKeepsAll(rs, IsRerun);
      assert |Filter(rs, IsRerun)| > 0 ==> Filter(rs, IsRerun)[0] in Filter(rs, IsRerun);
      Ok(|Filter(rs, IsRerun)|)
  }

  /** The page loop of `GetSuccessfulReruns` computes the same count. */
  method SuccessfulRerunsByPages(workflowId: string, runs: int -> Listing<WorkflowRun>) returns (r: Result<nat>)
    ensures r == SuccessfulReruns(workflowId, runs)
  {
    var id := ParseInt64(workflowId);
    if id.None? {
      return Err(InvalidWorkflowId(workflowId));
    }
    r := CountByPages(runs(id.value), IsRerun);
  }

  /** The corrected re-run count is the one `SuccessfulReruns` reports for a workflow id that parses. */
  lemma CorrectedRerunCount(workflowId: string, runs: int -> Listing<WorkflowRun>)
    requires ParseInt64(workflowId).Some?
    ensures SuccessfulReruns(workflowId, runs) == CountOf(runs(ParseInt64(workflowId).value), IsRerun)
  {
  }

  /**
   One successful run without an attempt number on the only page: the
   re-run loop as written panics, the corrected count takes it as a first
   attempt and is 0.
   */
  lemma RerunAttemptMissingPanics()
    ensures var l := [Page([WorkflowRun(Some("success"), None)], 5000)];
      CountAsWritten(l, ConclusionOrAttemptMissing, IsRerun) == Panicked && CountOf(l, IsRerun) == Ok(0)
  {
    var l := [Page([WorkflowRun(Some("success"), None)], 5000)];
    assert ConclusionOrAttemptMissing(l[0].items[0]);
    assert Items(l) == [WorkflowRun(Some("success"), None)];
    assert Filter(Items(l), IsRerun) == [];
  }

  /**
   No run is at once a failure, a first-try deploy and a re-run, so over
   the same runs the three counts together never exceed the runs listed.
   */
  lemma RunCountsFit(workflowId: string, runs: int -> Listing<WorkflowRun>)
    requires WorkflowRuns(workflowId, runs).Ok?
    ensures WorkflowFailures(workflowId, runs).value + SuccessfulDeploys(workflowId, runs).value
            + SuccessfulReruns(workflowId, runs).value <= |WorkflowRuns(workflowId, runs).value|
  {
    DisjointFiltersFit(WorkflowRuns(workflowId, runs).value, IsFailureRun, IsFirstTryDeploy, IsRerun);
  }

  /** Filtering five runs, spelled out. */
  lemma FilterFiveRuns(a: WorkflowRun, b: WorkflowRun, c: WorkflowRun, d: WorkflowRun, e: WorkflowRun,
                       p: WorkflowRun -> bool)
    ensures Filter([a, b, c, d, e], p) ==
      (if p(a) then [a] else []) + (if p(b) then [b] else []) + (if p(c) then [c] else [])
      + (if p(d) then [d] else []) + (if p(e) then [e] else [])
  {
    FilterSnoc([], a, p);
    assert [] + [a] == [a];
    FilterSnoc([a], b, p);
    assert [a] + [b] == [a, b];
    FilterSnoc([a, b], c, p);
    assert [a, b] + [c] == [a, b, c];
    FilterSnoc([a, b, c], d, p);
    assert [a, b, c] + [d] == [a, b, c, d];
    FilterSnoc([a, b, c, d], e, p);
    assert [a, b, c, d] + [e] == [a, b, c, d, e];
  }

  /**
   Five runs concluding success on attempt 1, success on attempt 2,
   success on attempt 1, failure, and success on attempt 3.
   */
  const FiveRuns: seq<WorkflowRun> := [
    WorkflowRun(Some("success"), Some(1)), WorkflowRun(Some("success"), Some(2)),
    WorkflowRun(Some("success"), Some(1)), WorkflowRun(Some("failure"), Some(1)),
    WorkflowRun(Some("success"), Some(3))]

  lemma FiveRunsFilters()
    ensures |Filter(FiveRuns, IsFirstTryDeploy)| == 2
    ensures |Filter(FiveRuns, IsRerun)| == 2
    ensures |Filter(FiveRuns, IsFailureRun)| == 1
  {
    var rs := FiveRuns;
    FilterFiveRuns(rs[0], rs[1], rs[2], rs[3], rs[4], IsFirstTryDeploy);
    FilterFiveRuns(rs[0], rs[1], rs[2], rs[3], rs[4], IsRerun);
    FilterFiveRuns(rs[0], rs[1], rs[2], rs[3], rs[4], IsFailureRun);
    assert rs == [rs[0], rs[1], rs[2], rs[3], rs[4]];
  }

  lemma WorkflowRunsOfOnePage(workflowId: string, id: int, runs: int -> Listing<WorkflowRun>, rs: seq<WorkflowRun>)
    requires ParseInt64(workflowId) == Some(id)
    requires runs(id) == [Page(rs, 5000)]
    ensures WorkflowRuns(workflowId, runs) == Ok(rs)
  {
    assert Items(runs(id)) == rs + Items([]);
    assert rs + [] == rs;
  }

  /** The five runs, listed on one page for workflow 42: two first-try deploys, two re-runs, one failure. */
  lemma FiveRunsClassified()
    ensures var runs := (id: int) => [Page(FiveRuns, 5000)];
      && SuccessfulDeploys("42", runs) == Ok(2)
      && SuccessfulReruns("42", runs) == Ok(2)
      && WorkflowFailures("42", runs) == Ok(1)
  {
    var runs := (id: int) => [Page(FiveRuns, 5000)];
    FormatThenParse(42);
    assert FormatInt(42) == "42";
    WorkflowRunsOfOnePage("42", 42, runs, FiveRuns);
    FiveRunsFilters();
  }

  // ---------------------------------------------------------------- GetAvgThreadDepth

  /** The comments of one item: what its comment fetch returned, or 0 when the fetch failed. */
  function CommentsOf(comments: int -> Option<nat>, number: int): nat
  {
    comments(number).GetOr(0)
  }

  function IssueComments(comments: int -> Option<nat>): Issue -> int
  {
    (i: Issue) => CommentsOf(comments, i.number)
  }

  function PullRequestComments(comments: int -> Option<nat>): PullRequest -> int
  {
    (pr: PullRequest) => CommentsOf(comments, pr.number)
  }

  /** The comments of the counted items, summed. */
  function ThreadComments(openIssues: seq<Issue>, openPrs: seq<PullRequest>,
                          issueComments: int -> Option<nat>, prComments: int -> Option<nat>): int
  {
    SumOf(openIssues, IssueComments(issueComments)) + SumOf(openPrs, PullRequestComments(prComments))
  }

  /**
   The mean of `GetAvgThreadDepth` over the listed issues and pull
   requests: the issues created before the end of the window and the pull
   requests created inside it are the threads, and each thread has the
   comments its fetch returned, or none when the fetch failed; 0 when there
   is no thread.
   */
  function ThreadDepth(allIssues: seq<Issue>, allPrs: seq<PullRequest>, start: Instant, end: Instant,
                       issueComments: int -> Option<nat>, prComments: int -> Option<nat>): (d: real)
    ensures var openIssues := Filter(allIssues, OpenedBefore(end));
      var openPrs := Filter(allPrs, InWindow(start, end));
      && d == Mean(ThreadComments(openIssues, openPrs, issueComments, prComments), |openIssues| + |openPrs|)
      && d >= 0.0
  {
    var openIssues := Filter(allIssues, OpenedBefore(end));
    var openPrs := Filter(allPrs, InWindow(start, end));
    NonNegativeSum(openIssues, IssueComments(issueComments));
    NonNegativeSum(openPrs, PullRequestComments(prComments));
    if |openIssues| + |openPrs| == 0 then 0.0
    else Mean(ThreadComments(openIssues, openPrs, issueComments, prComments), |openIssues| + |openPrs|)
  }

  /**
   `GetAvgThreadDepth`: the thread depth of the listed issues and pull
   requests. A failed issue walk is reported before the pull requests are
   walked.
   */
  function AvgThreadDepth(
    issues: Listing<Issue>, prs: Listing<PullRequest>, start: Instant, end: Instant,
    issueComments: int -> Option<nat>, prComments: int -> Option<nat>): (r: Result<real>)
    ensures !AllFetched(issues) ==> r.Err? && FailedWith(issues, r.error)
    ensures AllFetched(issues) && !AllFetched(prs) ==> r.Err? && FailedWith(prs, r.error)
    ensures AllFetched(issues) && AllFetched(prs) ==>
      r == Ok(ThreadDepth(Items(issues), Items(prs), start, end, issueComments, prComments))
  {
    match Walk(issues)
    case Err(e) => Err(e)
    case Ok(allIssues) =>
      match Walk(prs)
      case Err(e) => Err(e)
      case Ok(allPrs) => Ok(ThreadDepth(allIssues, allPrs, start, end, issueComments, prComments))
  }

  /** With every comment fetch failing, the threads average 0 comments however many there are. */
  lemma ThreadDepthWithoutComments(allIssues: seq<Issue>, allPrs: seq<PullRequest>, start: Instant, end: Instant,
                                   issueComments: int -> Option<nat>, prComments: int -> Option<nat>)
    requires forall n :: issueComments(n).None? && prComments(n).None?
    ensures ThreadDepth(allIssues, allPrs, start, end, issueComments, prComments) == 0.0
  {
    var openIssues := Filter(allIssues, OpenedBefore(end));
    var openPrs := Filter(allPrs, InWindow(start, end));
    SumOfBounds(openIssues, IssueComments(issueComments), 0, 0);
    SumOfBounds(openPrs, PullRequestComments(prComments), 0, 0);
    MeanOfNothing(|openIssues| + |openPrs|);
  }
}
