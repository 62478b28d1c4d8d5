/**
 The metrics of analyzer/action.go: integration issues, the revert rate,
 workflow failures and first-try deploys, and the workflow-run listing the
 run metrics share.
 */
module ActionMetrics {
  import opened Common
  import opened Folds
  import opened Text
  import opened Decimal
  import opened Ratios
  import opened GitHub
  import opened Paging

  // ---------------------------------------------------------------- GetIntegrationIssues

  /** The issues the issue counts keep: created strictly before the end of the window. */
  function OpenedBefore(end: Instant): Issue -> bool
  {
    (i: Issue) => i.createdAt < end
  }

  /**
   `GetIntegrationIssues`, and `GetRollbackIssues` of analyzer/merge.go,
   which differs only in the label the server filters by: how many of the
   listed issues were created before the end of the window. The label and
   start-date filters are the server's, so they shape the listing and are
   not modelled.
   */
  function IssuesCreatedBefore(l: Listing<Issue>, end: Instant): (r: Result<nat>)
    ensures r.Err? <==> !AllFetched(l)
    ensures r.Err? ==> FailedWith(l, r.error)
    ensures r.Ok? ==> r.value <= |Items(l)|
    ensures r.Ok? ==> (r.value == |Items(l)| <==> forall i :: i in Items(l) ==> i.createdAt < end)
  {
    match Walk(l)
    case Err(e) => Err(e)
    case Ok(issues) =>
      FilterKeepsAll(issues, OpenedBefore(end));
      Ok(|Filter(issues, OpenedBefore(end))|)
  }

  /** The page loop of `GetIntegrationIssues` and `GetRollbackIssues` computes the same count. */
  method IssuesCreatedBeforeByPages(l: Listing<Issue>, end: Instant) returns (r: Result<nat>)
    ensures r == IssuesCreatedBefore(l, end)
  {
    r := CountByPages(l, OpenedBefore(end));
  }

  // ---------------------------------------------------------------- GetRevertRate

  /** The lower-cased message of the commit contains "revert"; a commit without a message is no revert. */
  predicate IsRevert(c: Commit)
  {
    Message(c).Some? && Contains(ToLower(Message(c).value), "revert")
  }

  /**
   `GetRevertRate`: the percentage of listed commits that are reverts.
   Every listed commit counts towards the total, a commit without a message
   too; the rate is 0 when nothing was listed.
   */
  function RevertRate(l: Listing<Commit>): (r: Result<real>)
    ensures r.Err? <==> !AllFetched(l)
    ensures r.Err? ==> FailedWith(l, r.error)
    ensures r.Ok? ==> |Filter(Items(l), IsRevert)| <= |Items(l)|
    ensures r.Ok? ==> r.value == Percent(|Filter(Items(l), IsRevert)|, |Items(l)|)
  {
    match Walk(l)
    case Err(e) => Err(e)
    case Ok(cs) => Ok(Percent(|Filter(cs, IsRevert)|, |cs|))
  }

  /** The inner loop of `GetRevertRate`: one page of commits added to both counters. */
  method TallyReverts(total: nat, reverts: nat, ghost seen: seq<Commit>, commits: seq<Commit>)
    returns (total': nat, reverts': nat)
    requires total == |seen| && reverts == |Filter(seen, IsRevert)|
    ensures total' == |seen + commits| && reverts' == |Filter(seen + commits, IsRevert)|
  {
    total', reverts' := total + |commits|, reverts;
    ghost var done := seen;
    var j := 0;
    while j < |commits|
      invariant 0 <= j <= |commits|
      invariant done == seen + commits[..j]
      invariant reverts' == |Filter(done, IsRevert)|
    {
      var c := commits[j];
      FilterSnoc(done, c, IsRevert);
      if c.commit.Some? && c.commit.value.message.Some? {
        if Contains(ToLower(c.commit.value.message.value), "revert") {
          reverts' := reverts' + 1;
        }
      }
      done := done + [c];
      assert done == seen + commits[..j + 1];
      j := j + 1;
    }
    assert commits[..j] == commits;
  }

  /** The page loop of `GetRevertRate`, with its two counters, computes the same rate. */
  method RevertRateByPages(l: Listing<Commit>) returns (r: Result<real>)
    ensures r == RevertRate(l)
  {
    var total, reverts := 0, 0;
    ghost var seen: seq<Commit> := [];
    var i := 0;
    while i < |l|
      invariant 0 <= i <= |l|
      invariant AllFetched(l[..i])
      invariant seen == Items(l[..i])
      invariant total == |seen| && reverts == |Filter(seen, IsRevert)|
    {
      match l[i] {
        case Failed(e) =>
          WalkFailsAt(l, i);
          return Err(e);
        case Page(commits, _) =>
          total, reverts := TallyReverts(total, reverts, seen, commits);
          PageStep(l, i);
          seen := seen + commits;
          i := i + 1;
      }
    }
    assert l[..i] == l;
    assert Walk(l) == Ok(seen);
    if total == 0 {
      return Ok(0.0);
    }
    return Ok(Percent(reverts, total));
  }

  // ---------------------------------------------------------------- workflow runs

  /**
   The runs of the configured workflow, as the run metrics list them: the
   workflow id must parse as a base-10 int64 before anything is fetched,
   and the listing of that workflow's runs is walked to the end.
   */
  function WorkflowRuns(workflowId: string, runs: int -> Listing<WorkflowRun>): (r: Result<seq<WorkflowRun>>)
    ensures ParseInt64(workflowId).None? ==> r == Err(InvalidWorkflowId(workflowId))
    ensures ParseInt64(workflowId).Some? ==>
      var l := runs(ParseInt64(workflowId).value);
      && (r.Err? <==> !AllFetched(l))
      && (r.Err? ==> FailedWith(l, r.error))
      && (r.Ok? ==> r.value == Items(l))
  {
    match ParseInt64(workflowId)
    case None => Err(InvalidWorkflowId(workflowId))
    case Some(id) => Walk(runs(id))
  }

  /** The run ended in failure. */
  predicate IsFailureRun(run: WorkflowRun)
  {
    run.conclusion == Some("failure")
  }

  /**
   The run succeeded on its first attempt. A run without an attempt number
   counts as a first attempt, the default the job of main.go gives it.
   */
  predicate IsFirstTryDeploy(run: WorkflowRun)
  {
    run.conclusion == Some("success") && run.runAttempt.GetOr(1) == 1
  }

  /**
   `GetWorkflowFailures`: how many runs of the workflow ended in failure.
   A run still in progress has no conclusion and is not a failure.
   */
  function WorkflowFailures(workflowId: string, runs: int -> Listing<WorkflowRun>): (r: Result<nat>)
    ensures ParseInt64(workflowId).None? ==> r == Err(InvalidWorkflowId(workflowId))
    ensures WorkflowRuns(workflowId, runs).Err? ==> r == Err(WorkflowRuns(workflowId, runs).error)
    ensures WorkflowRuns(workflowId, runs).Ok? ==>
      var rs := WorkflowRuns(workflowId, runs).value;
      && r.Ok? && r.value <= |rs|
      && (r.value == 0 <==> forall run :: run in rs ==> !IsFailureRun(run))
      && (r.value == |rs| <==> forall run :: run in rs ==> IsFailureRun(run))
  {
    match WorkflowRuns(workflowId, runs)
    case Err(e) => Err(e)
    case Ok(rs) =>
      FilterKeepsAll(rs, IsFailureRun);
      assert |Filter(rs, IsFailureRun)| > 0 ==> Filter(rs, IsFailureRun)[0] in Filter(rs, IsFailureRun);
      Ok(|Filter(rs, IsFailureRun)|)
  }

  /** `GetSuccessfulDeploys`: how many runs of the workflow succeeded on their first attempt. */
  function SuccessfulDeploys(workflowId: string, runs: int -> Listing<WorkflowRun>): (r: Result<nat>)
    ensures ParseInt64(workflowId).None? ==> r == Err(InvalidWorkflowId(workflowId))
    ensures WorkflowRuns(workflowId, runs).Err? ==> r == Err(WorkflowRuns(workflowId, runs).error)
    ensures WorkflowRuns(workflowId, runs).Ok? ==>
      var rs := WorkflowRuns(workflowId, runs).value;
      && r.Ok? && r.value <= |rs|
      && (r.value == 0 <==> forall run :: run in rs ==> !IsFirstTryDeploy(run))
      && (r.value == |rs| <==> forall run :: run in rs ==> IsFirstTryDeploy(run))
  {
    match WorkflowRuns(workflowId, runs)
    case Err(e) => Err(e)
    case Ok(rs) =>
      FilterKeepsAll(rs, IsFirstTryDeploy);
      assert |Filter(rs, IsFirstTryDeploy)| > 0 ==> Filter(rs, IsFirstTryDeploy)[0] in Filter(rs, IsFirstTryDeploy);
      Ok(|Filter(rs, IsFirstTryDeploy)|)
  }

  /** The page loop of `GetWorkflowFailures` computes the same count. */
  method WorkflowFailuresByPages(workflowId: string, runs: int -> Listing<WorkflowRun>) returns (r: Result<nat>)
    ensures r == WorkflowFailures(workflowId, runs)
  {
    var id := ParseInt64(workflowId);
    if id.None? {
      return Err(InvalidWorkflowId(workflowId));
    }
    r := CountByPages(runs(id.value), IsFailureRun);
  }

  /** The page loop of `GetSuccessfulDeploys` computes the same count. */
  method SuccessfulDeploysByPages(workflowId: string, runs: int -> Listing<WorkflowRun>) returns (r: Result<nat>)
    ensures r == SuccessfulDeploys(workflowId, runs)
  {
    var id := ParseInt64(workflowId);
    if id.None? {
      return Err(InvalidWorkflowId(workflowId));
    }
    r := CountByPages(runs(id.value), IsFirstTryDeploy);
  }

  // ---------------------------------------------------------------- the nil pointers of the run loops

  /** What code that may dereference a nil pointer does: return, or panic. */
  datatype Outcome<T> = Returned(result: Result<T>) | Panicked

  /** Some run of the page is one whose test dereferences a nil pointer. */
  predicate Dereferences(rs: seq<WorkflowRun>, unsafe: WorkflowRun -> bool)
  {
    exists i :: 0 <= i < |rs| && unsafe(rs[i])
  }

  /** A page the walk reaches, every fetch before it succeeding, holds a run whose test panics. */
  ghost predicate PanicsOnSomePage(l: Listing<WorkflowRun>, unsafe: WorkflowRun -> bool)
  {
    exists k :: 0 <= k < |l| && AllFetched(l[..k]) && l[k].Page? && Dereferences(l[k].items, unsafe)
  }

  /** The runs of a fully fetched listing that pass `p`; the first failed fetch otherwise. */
  function CountOf(l: Listing<WorkflowRun>, p: WorkflowRun -> bool): (r: Result<nat>)
    ensures r.Ok? <==> AllFetched(l)
    ensures r.Err? ==> FailedWith(l, r.error)
    ensures r.Ok? ==> r.value <= |Items(l)|
  {
    match Walk(l)
    case Err(e) => Err(e)
    case Ok(rs) => Ok(|Filter(rs, p)|)
  }

  /**
   The page loop shared by the three run metrics as written: the test `p`
   of every run of a page reads pointers, and on a run where `unsafe`
   holds one of them is nil, so the first page holding such a run panics.
   Whenever the loop does return, it returns the count `CountOf` gives.
   */
  function CountAsWritten(l: Listing<WorkflowRun>, unsafe: WorkflowRun -> bool, p: WorkflowRun -> bool): (o: Outcome<nat>)
    ensures o.Returned? ==> o.result == CountOf(l, p)
    decreases |l|
  {
    if |l| == 0 then Returned(Ok(0))
    else
      match l[0]
      case Failed(e) => Returned(Err(e))
      case Page(rs, _) =>
        if Dereferences(rs, unsafe) then Panicked
        else
          match CountAsWritten(l[1..], unsafe, p)
          case Returned(Ok(n)) =>
            FilterAppend(rs, Items(l[1..]), p);
            Returned(Ok(|Filter(rs, p)| + n))
          case other => other
  }

  /** The loop as written panics exactly when the walk reaches a page holding a run whose test dereferences nil. */
  lemma {:induction false} PanicsExactly(l: Listing<WorkflowRun>, unsafe: WorkflowRun -> bool, p: WorkflowRun -> bool)
    ensures CountAsWritten(l, unsafe, p) == Panicked <==> PanicsOnSomePage(l, unsafe)
    decreases |l|
  {
    if |l| > 0 {
      assert forall k :: 0 < k <= |l| ==> l[..k][0] == l[0];
      if l[0].Page? && !Dereferences(l[0].items, unsafe) {
        var rest := l[1..];
        PanicsExactly(rest, unsafe, p);
        forall k | 0 <= k < |rest|
          ensures AllFetched(l[..k + 1]) <==> AllFetched(rest[..k])
          ensures l[k + 1] == rest[k]
        {
          assert l[..k + 1] == [l[0]] + rest[..k];
        }
        if PanicsOnSomePage(l, unsafe) {
          var k :| 0 <= k < |l| && AllFetched(l[..k]) && l[k].Page? && Dereferences(l[k].items, unsafe);
          assert k > 0;
          assert AllFetched(rest[..k - 1]) && rest[k - 1].Page? && Dereferences(rest[k - 1].items, unsafe);
        }
        if PanicsOnSomePage(rest, unsafe) {
          var k :| 0 <= k < |rest| && AllFetched(rest[..k]) && rest[k].Page? && Dereferences(rest[k].items, unsafe);
          assert AllFetched(l[..k + 1]) && l[k + 1].Page? && Dereferences(l[k + 1].items, unsafe);
        }
      } else if l[0].Page? {
        assert AllFetched(l[..0]);
      }
    }
  }

  /** Where no reachable page holds a run whose test dereferences nil, the loop as written returns the corrected count. */
  lemma ReturnsWithoutNil(l: Listing<WorkflowRun>, unsafe: WorkflowRun -> bool, p: WorkflowRun -> bool)
    requires forall k :: 0 <= k < |l| && AllFetched(l[..k]) && l[k].Page? ==> !Dereferences(l[k].items, unsafe)
    ensures CountAsWritten(l, unsafe, p) == Returned(CountOf(l, p))
  {
    PanicsExactly(l, unsafe, p);
  }

  /** `GetWorkflowFailures` reads `*run.Conclusion`: nil for a run still in progress. */
  predicate ConclusionMissing(run: WorkflowRun)
  {
    run.conclusion.None?
  }

  /**
   `GetSuccessfulDeploys` and `GetSuccessfulReruns` read `*run.Conclusion`,
   then `*run.RunAttempt` only once the conclusion is "success".
   */
  predicate ConclusionOrAttemptMissing(run: WorkflowRun)
  {
    run.conclusion.None? || (run.conclusion == Some("success") && run.runAttempt.None?)
  }

  /** The corrected counts are the ones the run metrics report for a workflow id that parses. */
  lemma CorrectedRunCounts(workflowId: string, runs: int -> Listing<WorkflowRun>)
    requires ParseInt64(workflowId).Some?
    ensures WorkflowFailures(workflowId, runs) == CountOf(runs(ParseInt64(workflowId).value), IsFailureRun)
    ensures SuccessfulDeploys(workflowId, runs) == CountOf(runs(ParseInt64(workflowId).value), IsFirstTryDeploy)
  {
  }

  /** One run in progress on the only page: the failure loop as written panics, the corrected count is 0. */
  lemma RunInProgressPanics()
    ensures var l := [Page([WorkflowRun(None, Some(1))], 5000)];
      CountAsWritten(l, ConclusionMissing, IsFailureRun) == Panicked && CountOf(l, IsFailureRun) == Ok(0)
  {
    var l := [Page([WorkflowRun(None, Some(1))], 5000)];
    assert ConclusionMissing(l[0].items[0]);
    assert Items(l) == [WorkflowRun(None, Some(1))];
    assert Filter(Items(l), IsFailureRun) == [];
  }

  /**
   One successful run without an attempt number on the only page: the
   deploy loop as written panics, the corrected count takes it as a first
   attempt and is 1.
   */
  lemma AttemptMissingPanics()
    ensures var l := [Page([WorkflowRun(Some("success"), None)], 5000)];
      CountAsWritten(l, ConclusionOrAttemptMissing, IsFirstTryDeploy) == Panicked && CountOf(l, IsFirstTryDeploy) == Ok(1)
  {
    var l := [Page([WorkflowRun(Some("success"), None)], 5000)];
    assert ConclusionOrAttemptMissing(l[0].items[0]);
    assert Items(l) == [WorkflowRun(Some("success"), None)];
    assert Filter(Items(l), IsFirstTryDeploy) == Items(l);
  }
}
