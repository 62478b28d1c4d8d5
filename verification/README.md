# using-github-metrics, modelled in Dafny

The repository collects engineering metrics for a set of GitHub
repositories grouped by area. Two programs share the same fetch-and-fold
style:

- the `analyzer` package measures every repository of every area. It
  reports branch size, contributors, commit distribution, pull-request
  conflicts, merge time, reviewers, churn by file and directory,
  integration and rollback issues, revert rate, workflow failures,
  first-try deploys, re-runs and thread depth. It fills one `RepoMetrics`
  record per repository and swallows every metric error;
- `main.go` runs a shorter job per repository: branch size, the workflow
  looked up by name, the attempts of its successful runs, merge conflicts
  and rollback issues. It stops at the first error and writes a Markdown
  report grouped by area.

The model keeps the logic and drops the transport. Each GitHub listing is
a `Listing<T>`, the sequence of page fetches a walk makes. A fetch returns
a page of items with the remaining-call quota, or fails. Each detail
fetch (one commit, one pull request, one review list) is a function from
the key to an optional answer. Each metric is a pure function over those
answers. The page loops that count items (in the analyzer and in the
job's conflict and rollback counts), the commit distribution's loop and
the revert rate's loop are methods proved equal to their functions; the
other metrics are `Paging.Walk` followed by a fold over the listed items.
The analyzer's metrics each make their own calls, so its answers are
indexed by the metric making them: two metrics listing the same endpoint
may see different pages. Times are integer seconds and float64
arithmetic is exact `real` arithmetic.

Modules, in dependency order:

- `Common`: the `Option`/`Result` wrappers and the errors.
- `Text`: ASCII lower-casing and substring search.
- `Decimal`: base-10 numerals and `strconv.ParseInt`.
- `Ratios`: percentage and mean with the zero guard.
- `Order`: string order, sorting and the uniqueness of a sorted permutation.
- `Folds`: filter, weighted sums, histograms and sums of map values.
- `Helpers`: analyzer/functions.go.
- `Paging`: listings and the generic page loops.
- `GitHub`: the API records.
- `CommitMetrics`: analyzer/commit.go.
- `ActionMetrics`: analyzer/action.go.
- `MergeMetrics`: analyzer/merge.go.
- `ContributorMetrics`: analyzer/contributor.go.
- `Analyzer`: analyzer/analyzer.go and analyzer/types.go.
- `MainJob`: the per-repository job of main.go.
- `Report`: `generateMarkdown` of main.go.

Where the source's comments and its code disagree, or the code does not
compile, the model follows the evident reading of the code. There are two
such places:

- The configuration comment calls the analyzer's workflow setting "name
  or ID". The code only parses it as a base-10 int64 and fails every run
  metric otherwise; `ActionMetrics.WorkflowRuns` models exactly that.
- main.go does not compile as written. Its `var` block contains an `if`
  statement (main.go:18-22). `processRepo` destructures four values from
  `getAverageAndTotalRunAttempts`, which returns three (main.go:154). The
  model takes the evident reading: the settings are constants
  (`MainJob.DefaultSettings`), and the run-attempt step cannot fail, so the
  error test at main.go:155-158 never fires.

## Model

| member | source | states |
|---|---|---|
| Paging.Walk | analyzer/commit.go:51-68 | The page walk succeeds exactly when no fetch failed, and then yields the items of all pages in page order. Otherwise it reports the error of the first failed fetch, with every earlier fetch succeeded. |
| Paging.CountByPages | analyzer/action.go:15-32 | The counting page loop fails exactly when some fetch failed, with the first failure's error. Otherwise it returns the number of listed items the predicate selects. |
| Paging.CountPage | analyzer/action.go:21-25 | One page of the counting loop adds the number of that page's items the predicate selects. |
| Paging.Pauses | analyzer/functions.go:13-17 | A walk pauses at most once per page except the last, and never when every page reports at least 100 remaining calls. |
| Paging.PausePointsSplit | analyzer/commit.go:63-67 | After a fetched first page, the walk pauses after that page when its quota is below 100, then at the pause points of the rest of the walk. |
| Paging.PausesCount | analyzer/functions.go:13-17 | The walk pauses exactly once per page that is not the last, is reached with every earlier fetch succeeding, and reports fewer than 100 remaining calls. |
| Paging.FinalQuotaIgnored | analyzer/commit.go:63-67 | The rate check runs only after a page that has a successor, so the quota the last page reports never changes the pauses. |
| Folds.SumWhere | main.go:189-195 | The entry loop adds the weights of exactly the entries the predicate selects, in order. |
| CommitMetrics.TallyTree | analyzer/commit.go:26-36 | The file count is the number of blob entries, and never more than the entries. The size is the sum of the sizes of the blobs, a blob without a size adding 0. |
| CommitMetrics.MainSize | analyzer/commit.go:12-39 | A failed ref or tree fetch is reported and nothing is tallied. Otherwise the branch holds as many files as blob entries, and its size is the sum of the blob sizes. |
| CommitMetrics.LoginsCount | analyzer/commit.go:57-61 | Each author login is collected once per commit that names it; commits without a login contribute nothing. |
| CommitMetrics.CommitDistribution | analyzer/commit.go:42-71 | Fails exactly when a page fetch failed, with that error. Otherwise a login is a key exactly when it authored some listed commit, its value is the number of those commits, and the values sum to at most the number of commits. |
| CommitMetrics.TallyStep | analyzer/commit.go:57-61 | One more commit adds one to its author's count in the distribution, and leaves the distribution unchanged when it has no author login. |
| CommitMetrics.TallyPage | analyzer/commit.go:57-61 | Folding one page into the distribution gives the distribution of the commits seen so far plus that page. |
| CommitMetrics.CommitDistributionByPages | analyzer/commit.go:49-70 | The page loop with its running map computes the commit distribution, error included. |
| CommitMetrics.ConflictsInWindow | analyzer/commit.go:82-109 | Counting the conflicts among the pull requests kept for the window is counting the pull requests that are in the window and conflict. |
| CommitMetrics.ConflictStatsOf | analyzer/commit.go:82-119 | The conflict count is the number of pull requests created strictly inside the window whose detail fetch reports them not mergeable. It never exceeds the number in the window, and the rate is its percentage of them, 0 for an empty window. |
| CommitMetrics.ConflictRateAndCount | analyzer/commit.go:74-120 | A failed listing is reported with the first failure's error; otherwise the result is the conflict statistics of all listed pull requests. |
| CommitMetrics.Filenames | analyzer/commit.go:164-168 | Each file name is collected once per file entry carrying it; entries without a name are skipped. |
| CommitMetrics.TouchedFiles | analyzer/commit.go:150-175 | Each name occurs once per file entry carrying it over the details of all commits. A commit with a nil SHA or a failed detail fetch adds nothing. |
| CommitMetrics.ChurnByFile | analyzer/commit.go:123-179 | Fails exactly when the commit listing failed. Otherwise a file is a key exactly when some commit detail names it, with the number of entries naming it as value. |
| CommitMetrics.GroupsStep | analyzer/commit.go:188-191 | Adding one more file's churn to its parent directory keeps the grouping: keys are the directories holding a file seen so far, each value sums its files, the total is unchanged. |
| CommitMetrics.Regroup | analyzer/commit.go:187-191 | Folding a list of distinct files into their parent directories groups exactly those files by directory. |
| CommitMetrics.GroupByDir | analyzer/commit.go:187-192 | A directory is a key exactly when some file lies directly in it. Its value is the churn of those files, and the directory totals sum to the file totals. |
| CommitMetrics.ChurnByDir | analyzer/commit.go:182-193 | The churn-by-file error passes through; otherwise the result groups that map by parent directory. |
| ActionMetrics.IssuesCreatedBefore | analyzer/action.go:13-33 | Fails exactly when a page fetch failed. Otherwise it counts the listed issues created before the end of the window: at most the number listed, and all of them exactly when every one was. |
| ActionMetrics.IssuesCreatedBeforeByPages | analyzer/merge.go:142-162 | The page loop of the analyzer's rollback-issue count, the same loop as the integration-issue count over the issues labelled rollback, computes that count. |
| ActionMetrics.RevertRate | analyzer/action.go:36-74 | Fails exactly when a page fetch failed. Otherwise it returns the percentage of listed commits whose lower-cased message contains "revert", over all listed commits, and 0 when there are none. |
| ActionMetrics.TallyReverts | analyzer/action.go:52-60 | One page adds its size to the total and its reverts to the revert count. |
| ActionMetrics.RevertRateByPages | analyzer/action.go:43-73 | The page loop with its two counters computes the revert rate, error included. |
| ActionMetrics.WorkflowRuns | analyzer/action.go:78-99 | A workflow id that is not a base-10 int64 fails before anything is fetched. Otherwise the result is the walk of that workflow's runs. |
| ActionMetrics.WorkflowFailures | analyzer/action.go:77-101 | Passes the id and listing errors through. Otherwise it counts the runs that concluded in failure: 0 exactly when none did, and all runs exactly when all did. |
| ActionMetrics.SuccessfulDeploys | analyzer/action.go:104-128 | The same shape as the failure count, for the runs that succeeded on attempt 1, a missing attempt number counting as 1. |
| ActionMetrics.WorkflowFailuresByPages | analyzer/action.go:78-100 | The parse followed by the page loop computes the failure count. |
| ActionMetrics.SuccessfulDeploysByPages | analyzer/action.go:105-127 | The parse followed by the page loop computes the deploy count. |
| ActionMetrics.CountOf | analyzer/action.go:84-100 | The corrected run count: it succeeds exactly when every page was fetched, reports the first failed fetch otherwise, and counts at most the listed runs. |
| ActionMetrics.CountAsWritten | analyzer/action.go:84-100 | The run loop as written: whenever it returns instead of panicking, it returns the corrected count, error included. |
| ActionMetrics.PanicsExactly | analyzer/action.go:88-93 | The loop as written panics exactly when the walk reaches, with every earlier fetch succeeding, a page holding a run whose test reads a nil pointer. |
| ActionMetrics.ReturnsWithoutNil | analyzer/action.go:84-99 | When no reachable page holds such a run, the loop as written returns the corrected count. |
| ActionMetrics.CorrectedRunCounts | analyzer/action.go:77-128 | For an id that parses, the failure and first-try deploy counts are the corrected counts over that workflow's runs. |
| ActionMetrics.RunInProgressPanics | analyzer/action.go:89-93 | A single page holding one run in progress: the failure loop as written panics, while the corrected count is 0. |
| ActionMetrics.AttemptMissingPanics | analyzer/action.go:116-120 | A single page holding one successful run without an attempt number: the deploy loop as written panics, while the corrected count takes it as attempt 1 and is 1. |
| MergeMetrics.AvgMergeTime | analyzer/merge.go:14-53 | Fails exactly when a page fetch failed. Otherwise it returns the mean creation-to-merge time in days of the merged pull requests created inside the window, and 0 when there are none. The mean is not negative when no merge precedes its creation. |
| MergeMetrics.MergeTimeWithin | analyzer/merge.go:40-52 | When every merged pull request created inside the window stayed open between `lo` and `hi` seconds, and there is at least one, the average merge time in days lies between `lo` and `hi` seconds expressed in days. |
| MergeMetrics.ReviewerSet | analyzer/merge.go:91-96 | A login is a reviewer exactly when some review with a user names it; there are no more reviewers than reviews. |
| MergeMetrics.AvgReviewersPerPR | analyzer/merge.go:57-112 | Fails exactly when the listing failed. Otherwise it averages the distinct reviewers over the in-window pull requests whose review fetch succeeded. The average is not negative, and the cross-team count is 0. |
| MergeMetrics.AvgReviewersBounded | analyzer/merge.go:90-110 | When no fetched review list is longer than k, the average is at most k. |
| MergeMetrics.SuccessfulReruns | analyzer/merge.go:115-139 | Passes the id and listing errors through. Otherwise it counts the runs that succeeded on an attempt after the first, a missing attempt number counting as 1: 0 exactly when none did, and all runs exactly when all did. |
| MergeMetrics.SuccessfulRerunsByPages | analyzer/merge.go:116-138 | The parse followed by the page loop computes the re-run count. |
| MergeMetrics.CorrectedRerunCount | analyzer/merge.go:115-139 | For an id that parses, the re-run count is the corrected count over that workflow's runs. |
| MergeMetrics.RerunAttemptMissingPanics | analyzer/merge.go:127-131 | A single page holding one successful run without an attempt number: the re-run loop as written panics, while the corrected count takes it as attempt 1 and is 0. |
| MergeMetrics.RunCountsFit | analyzer/merge.go:127-131 | No run is at once a failure, a first-try deploy and a re-run, so over the same runs the three counts add up to at most the number of runs. |
| MergeMetrics.FiveRunsClassified | analyzer/merge.go:127-131 | Five runs of workflow "42" on one page: two first-try deploys, two re-runs and one failure. |
| MergeMetrics.ThreadDepth | analyzer/merge.go:206-252 | Counts the comments of the issues created before the end and of the pull requests created inside the window, over the number of those threads, and 0 when there are none. A failed comment fetch adds 0, and the result is never negative. |
| MergeMetrics.AvgThreadDepth | analyzer/merge.go:165-253 | A failed issue walk is reported first, then a failed pull-request walk; otherwise the result is the thread depth of the listed items. |
| MergeMetrics.ThreadDepthWithoutComments | analyzer/merge.go:223-252 | When every comment fetch fails, the depth is 0 however many threads there are. |
| ContributorMetrics.LoginsMembership | analyzer/contributor.go:25-29 | A login is collected exactly when some commit has it as author login. |
| ContributorMetrics.ContributorSet | analyzer/contributor.go:17-29 | The set holds exactly the author logins of the commits, and no more of them than commits. |
| ContributorMetrics.UniqueContributors | analyzer/contributor.go:10-40 | Fails exactly when a page fetch failed. Otherwise it lists every author login exactly once, with the count equal to the list's length and at most the number of commits. |
| ContributorMetrics.ContributorsAreDistributionKeys | analyzer/contributor.go:25-29 | Over the same listing, the contributors are exactly the keys of the commit distribution. |
| Helpers.Usernames | analyzer/functions.go:20-26 | Lists every name of the set exactly once. |
| Helpers.Rem | analyzer/functions.go:31-32 | Go's remainder: dividend = divisor × quotient + remainder, with the remainder taking the dividend's sign. |
| Helpers.SplitSeconds | analyzer/functions.go:29-33 | Hours, minutes and seconds recombine to the input; for a non-negative input the minutes and seconds are below 60. |
| Helpers.FormatSecondsToHMS | analyzer/functions.go:29-34 | Under 100 hours the rendering is eight characters with colons at positions 2 and 5. |
| Helpers.FormatSecondsRoundTrip | analyzer/functions.go:29-34 | Under 100 hours, reading the three two-digit fields back gives the number of seconds. |
| Decimal.ParseInt64 | analyzer/action.go:78-81 | Succeeds exactly on an optional sign followed by one or more digits whose value fits in int64, and yields that value. |
| Decimal.FormatThenParse | analyzer/action.go:78 | Parsing the decimal rendering of any int64 gives it back. |
| Ratios.Percent | analyzer/commit.go:115-118 | 0 for an empty whole; otherwise a value between 0 and 100 that, times the whole, is 100 times the part. |
| Ratios.Mean | analyzer/merge.go:107-110 | 0 for no items; otherwise a value that, times the count, gives the total. It is never negative for a non-negative total. |
| Ratios.MeanDays | analyzer/merge.go:49-52 | 0 for no items; otherwise, times the count and the 86400 seconds of a day, it gives the total seconds. |
| Text.ToLower | analyzer/action.go:56 | Same length, each character lower-cased on its own. |
| Text.Contains | analyzer/action.go:56 | True exactly when the pattern occurs at some position of the string. |
| Order.SortedElements | main.go:312-316 | The elements of the set, each once, in strictly ascending order. |
| Order.SortBy | main.go:329-331 | A permutation of the input, sorted by key. |
| Order.SortedPermutationUnique | main.go:329-331 | Two sorted permutations of the same items with distinct keys are equal, so the sort's result does not depend on its input order. |
| Analyzer.Measure | analyzer/analyzer.go:43-137 | The record names its repository. Each metric field is that metric over its own answers when the metric succeeds (`CommitMetricsOnSuccess`, `ListingMetricsOnSuccess`, `SizeAndRunMetricsOnSuccess`) and the value the metric returns on error otherwise (`CommitMetricsOnFailure`, `ListingMetricsOnFailure`, `SizeAndRunMetricsOnFailure`); `CommitFieldsIsolated` and `WorkflowIdIsolated` state which answers each field depends on. |
| Analyzer.CommitMetricsOnSuccess | analyzer/analyzer.go:47-99 | A commit metric that succeeds sets its fields to what it computed over its own walk of the commits: the contributor count and list, the distribution map, the two churn maps and the revert rate. |
| Analyzer.ListingMetricsOnSuccess | analyzer/analyzer.go:59-135 | A listing metric that succeeds sets its field to its value: the conflict rate and count, the average merge time, the average reviewer count, the integration and rollback issue counts up to the configured end, and the average thread depth. |
| Analyzer.SizeAndRunMetricsOnSuccess | analyzer/analyzer.go:75-129 | A successful size measure sets the byte and file counts, and each successful run count (re-runs, failures, first-try deploys) over its own walk for the configured workflow sets its field. |
| Analyzer.CommitMetricsOnFailure | analyzer/analyzer.go:47-99 | A commit metric whose own walk of the commits fails leaves its fields at zero, an empty list or a nil map, whatever the other commit metrics' walks saw; each churn or distribution map is nil exactly when its walk failed. |
| Analyzer.ListingMetricsOnFailure | analyzer/analyzer.go:59-135 | The conflict, reviewer, merge-time, integration, rollback and thread-depth fields are 0 when their own listings fail, the thread depth when either of its two walks fails; the cross-team count is always 0. |
| Analyzer.SizeAndRunMetricsOnFailure | analyzer/analyzer.go:75-129 | A failed ref or tree fetch leaves size and file count 0. Each run field is 0 when its own walk fails, and all three when the id does not parse. |
| Analyzer.ContributorsMatchDistribution | analyzer/analyzer.go:47-57 | When the contributor and distribution walks see the same fully fetched pages, the contributor count, the length of the contributor list and the number of distribution keys agree. |
| Analyzer.RunFieldsFit | analyzer/analyzer.go:107-129 | When the three run walks see the same runs, re-runs, failures and first-try deploys add up to at most those runs. |
| Analyzer.CommitFieldsIsolated | analyzer/analyzer.go:47-99 | What the commit listings and commit details return changes no field outside the commit metrics. |
| Analyzer.WorkflowIdIsolated | analyzer/analyzer.go:107-129 | The workflow id changes only the three run fields, and an id that does not parse leaves them at 0. |
| Analyzer.AllRepos | analyzer/analyzer.go:36-39 | The area lists concatenated in visiting order: a repository is listed exactly when some visited area names it. |
| Analyzer.AllReposLength | analyzer/analyzer.go:36-39 | The flattened list holds as many repositories as the area lists together. |
| Analyzer.AllReposOccurrences | analyzer/analyzer.go:36-39 | Each repository occurs in the flattened list as often as the area lists name it, whatever the visiting order of the areas. |
| Analyzer.AllReposOrderIrrelevant | analyzer/analyzer.go:36-39 | Two visiting orders of the areas give the same repositories up to order. |
| Analyzer.ListRepos | analyzer/analyzer.go:36-39 | The flattening loop appends the area lists in the order the areas are visited. |
| Analyzer.MeasureEach | analyzer/analyzer.go:41-140 | One record per repository, in order, each the measure of its repository. |
| Analyzer.Check | analyzer/analyzer.go:32-143 | Never reports an error. It returns one record per flattened repository, in order, each with that repository's name and its measurement against that repository's answers. |
| Analyzer.DuplicatesKept | analyzer/analyzer.go:36-41 | A repository listed under two areas is measured at least twice. |
| MainJob.BranchSize | main.go:180-196 | A failed ref or tree fetch is reported. Otherwise the size is the sum of the sizes of the blob entries that report one. |
| MainJob.SizedBlobsSum | main.go:190-194 | Summing only the blobs that report a size gives the same total as summing every blob with a missing size as 0. |
| MainJob.BranchSizeIsMainSize | main.go:180-196 | The job's branch size equals the byte count the analyzer's `GetMainSize` reports for the same tree. |
| MainJob.WorkflowId | main.go:198-209 | A failed listing is reported. Otherwise it succeeds exactly when some workflow has the name, with the id of the first such workflow; if none has it, the error names the workflow and the repository. |
| MainJob.FirstNamed | main.go:203-207 | The index of the first workflow with the name, or the length when none has it. |
| MainJob.AverageAndTotalRunAttempts | main.go:211-242 | A failed fetch gives all zeros. Otherwise it counts the successful runs and sums their attempts, a missing attempt counting 1; the average is their mean, and all are zero when no run succeeded. |
| MainJob.SuccessesAreDeploysAndReruns | main.go:223-229 | The job counts a missing attempt as 1, and so does the analyzer. When no run reports an attempt below 1, the job's successful runs are exactly the analyzer's first-try deploys and re-runs together. |
| MainJob.AttemptsCoverRuns | main.go:223-241 | When no run reports an attempt below 1, the attempts are at least the successful runs. |
| MainJob.CountMergeConflicts | main.go:244-272 | Fails exactly when a page fetch failed. Otherwise it counts the pull requests closed since the start whose detail reports them not mergeable with state "dirty". |
| MainJob.MergeConflictsAreConflicts | main.go:258-263 | The job's conflict test implies the analyzer's conflict test, the analyzer's creation window set aside, so over the same pull requests the job counts no more conflicts than that test selects. |
| MainJob.AnyRollbackLabelExists | main.go:288-293 | An issue has a rollback label exactly when some label's lower-cased name contains "rollback". |
| MainJob.HasRollbackLabel | main.go:288-293 | The label loop with its early exit finds a rollback label exactly when one exists. |
| MainJob.CountRollbackIssues | main.go:274-302 | Fails exactly when a page fetch failed. Otherwise it counts the issues closed since the start that carry a rollback label, each issue once. |
| MainJob.ProcessRepo | main.go:130-178 | The job succeeds exactly when the ref and tree fetches, the workflow lookup and both listings succeed. The first failure ends it with that step's error: a failed ref or tree fetch leaves every field 0; a missing workflow reports the lookup's error with the run, conflict and rollback fields 0; a failed pull or issue walk reports its first failed fetch with its field and the later ones 0. Each field a step reached holds that step's value: the size of the sized blobs, the run attempts, the conflicts, the rollbacks. |
| Report.LineOf | main.go:333-348 | A failed result shows only its error; a completed one shows its numbers, with the re-runs being the attempts beyond one per run. |
| Report.AreaRows | main.go:321-331 | The results of the area, all of them and no others, sorted by repository name. |
| Report.AreaRowsMembers | main.go:322-327 | A result is a row of the area exactly when it belongs to that area. |
| Report.SectionsFor | main.go:318-350 | One section per area in the given order, each listing as many lines as that area has results. |
| Report.AreaOrder | main.go:312-316 | The configured areas, each once, in ascending order. |
| Report.Sections | main.go:304-351 | One section per configured area, and no other. Each lists as many lines as the area has results; results of other areas are not shown. |
| Report.SectionsAscending | main.go:312-318 | The sections come in strictly ascending order of area. |
| Report.ResultReported | main.go:318-336 | Every result of a configured area appears as a line in that area's section. |
| Report.ReportIgnoresArrivalOrder | main.go:110-113 | The order in which the concurrent jobs append their results does not change the report, given one result per repository of an area. |
| Report.AreaRowsIgnoreOrder | main.go:321-331 | The rows of an area do not depend on the order of the results. |
| Report.ReRunsNonNegative | main.go:340 | When no run reports an attempt below 1, the re-runs a completed result shows are never negative. |

## Left out

- HTTP, authentication, the GitHub client and its server-side filters are not modelled. The labels, state, sort order, the `since` date and the run status and creation filters only shape the pages a listing returns, which are the model's input.
- Concurrency is not modelled. The metric goroutines, semaphores and mutexes of the analyzer are left out, and so is `main`'s repository loop (main.go:100-122), which starts one job goroutine per repository under a semaphore and appends the results under a mutex. The analyzer's repository loop is sequential in the source, and each of its metric goroutines writes its own fields. The report's dependence on arrival order is covered by `Report.ReportIgnoresArrivalOrder`.
- `time.Sleep` is left out. Only the rate checks inside the listing walks (for example commit.go:67 and merge.go:37) are modelled, as the number of pauses (`Paging.Pauses`). The pauses of the rate checks after `GetTree` (commit.go:24) and after each detail fetch (commit.go:110 and 172, merge.go:102, 229 and 246) are not modelled.
- `time.Now`, the report window arithmetic and all date formatting are left out. The window bounds are parameters.
- `BranchSizeMB` is left out, because it is a float conversion of the byte count. `PeriodFrom` and `PeriodTo` are left out, because they only format dates.
- `Export`, `NewAnalyzer`, `main`'s log goroutine and the text written to output.md are left out, because they are I/O. The report keeps which lines appear, in which section and order, and with which numbers.
- Integer widths are not modelled: counts are unbounded and int64 sums do not wrap. Float64 rounding is not modelled either; ratios are exact reals.
- CommitMetrics.ParentDir: implements `filepath.Dir` only for clean slash-separated paths; cleaning `..` and repeated slashes is not modelled.
- Text.ToLower: lower-cases ASCII letters only, not the full Unicode case mapping of `strings.ToLower`.
- Nil-pointer dereferences other than those under Findings are not modelled. Where the field can be absent in the model it is optional, and a missing one counts as "no match" where Go would panic: a run's conclusion or attempt in the analyzer, and a tree entry's type in main.go.
- Some pointers the source dereferences are not optional in the model, so their nil case cannot be expressed: a pull request's or issue's `Number` and `CreatedAt`, and a review user's `Login` (merge.go:94, where a user without a login panics; the model only distinguishes a review without a user).
- The rate check after a failed detail fetch is not modelled. `checkRateLimit(resp)` reads `resp.Rate` (functions.go:14) and is called with the response of a detail fetch whether or not it failed (commit.go:110, merge.go:102, 229 and 246), so a fetch failing without a response would panic there. `GetChurnByFile` guards the call (commit.go:171). The model treats a failed detail fetch as skipped.
- Review lists, comment lists and the workflow list are modelled as one page each, because the source fetches only the first page of each (100 items) and never pages through them.
- Helpers.Usernames: lists the names in ascending order. Go's map iteration order is unspecified, so only the contents and the absence of repeats are promised.
- Order.SortBy: is a stable insertion sort, while `sort.Slice` is not stable. `Report.AreaRowsIgnoreOrder` shows the order of the rows is still determined when each repository of an area has one result.
- The analyzer's `RepoMetrics` maps are `Option` maps, so the JSON difference between a nil map and an empty one is kept. The empty and nil contributor lists are not distinguished.
- Analyzer.Measure: its own ensures names only the repository. Each metric field is stated by the lemmas about it: the `OnSuccess` lemmas give its value when its metric succeeds, the `OnFailure` lemmas its value when it fails.
- Analyzer.Check: takes the order in which Go ranges over the `Projects` map as a parameter, because Go leaves that order unspecified. `Analyzer.AllReposOrderIrrelevant` shows every order lists the same repositories.

## Findings

| source | as written | input that shows it | evidently intended | confidence | as-written member | corrected member |
|---|---|---|---|---|---|---|
| analyzer/action.go:89-93 | `*run.Conclusion` is read for every listed run, and a run still in progress has no conclusion, so the pointer is nil. | One page holding a single run with no conclusion and attempt 1 | Such a run is not a failure; count 0 | not executed | ActionMetrics.CountAsWritten, ActionMetrics.RunInProgressPanics | ActionMetrics.CountOf, ActionMetrics.WorkflowFailures |
| analyzer/action.go:116-120 | `*run.RunAttempt` is read for every run that concluded in success, and the attempt number is optional, so the pointer can be nil. A run without a conclusion panics here too. | One page holding a single successful run with no attempt number | Such a run counts as a first-try deploy, as main.go:225-228 reads a missing attempt as 1; count 1 | not executed | ActionMetrics.CountAsWritten, ActionMetrics.AttemptMissingPanics | ActionMetrics.CountOf, ActionMetrics.SuccessfulDeploys |
| analyzer/merge.go:127-131 | `*run.RunAttempt` is read for every run that concluded in success, as in the deploy count. A run without a conclusion panics here too. | One page holding a single successful run with no attempt number | Such a run is not a re-run, as main.go:225-228 reads a missing attempt as 1; count 0 | not executed | ActionMetrics.CountAsWritten, MergeMetrics.RerunAttemptMissingPanics | ActionMetrics.CountOf, MergeMetrics.SuccessfulReruns |
