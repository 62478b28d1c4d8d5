/**
 The metrics of analyzer/commit.go: the size of the default branch, the
 commit distribution per author, the merge-conflict rate of pull requests,
 and churn by file and by directory.
 */
module CommitMetrics {
  import opened Common
  import opened Folds
  import opened Order
  import opened Ratios
  import opened GitHub
  import opened Paging

  // ---------------------------------------------------------------- GetMainSize

  predicate IsBlob(e: TreeEntry)
  {
    e.kind == Some("blob")
  }

  function SizeOrZero(e: TreeEntry): int
  {
    e.size.GetOr(0)
  }

  datatype BranchSize = BranchSize(bytes: int, files: nat)

  /**
   The loop over the tree entries: a blob adds its size when it has one and
   counts as a file either way; every other entry is skipped.
   */
  function TallyTree(entries: seq<TreeEntry>): (t: BranchSize)
    ensures t.files == |Filter(entries, IsBlob)| <= |entries|
    ensures t.bytes == SumOf(Filter(entries, IsBlob), SizeOrZero)
  {
    if |entries| == 0 then BranchSize(0, 0)
    else
      var init, e := entries[..|entries| - 1], entries[|entries| - 1];
      var t := TallyTree(init);
      var blobs := Filter(init, IsBlob);
      assert entries == init + [e];
      assert Filter(entries, IsBlob) == blobs + (if IsBlob(e) then [e] else []);
      assert (blobs + [e])[..|blobs|] == blobs;
      assert blobs + [] == blobs;
      if IsBlob(e) then
        BranchSize(if e.size.Some? then t.bytes + e.size.value else t.bytes, t.files + 1)
      else
        t
  }

  /**
   `GetMainSize`: resolve the branch head, fetch its recursive tree and
   tally it. A failed ref or tree fetch is reported and nothing is tallied.
   */
  function MainSize(ref: Result<string>, tree: string -> Result<seq<TreeEntry>>): (r: Result<BranchSize>)
    ensures ref.Err? ==> r == Err(ref.error)
    ensures ref.Ok? && tree(ref.value).Err? ==> r == Err(tree(ref.value).error)
    ensures ref.Ok? && tree(ref.value).Ok? ==>
      var entries := tree(ref.value).value;
      && r.Ok?
      && r.value.files == |Filter(entries, IsBlob)| <= |entries|
      && r.value.bytes == SumOf(Filter(entries, IsBlob), SizeOrZero)
  {
    match ref
    case Err(e) => Err(e)
    case Ok(sha) =>
      match tree(sha)
      case Err(e) => Err(e)
      case Ok(entries) => Ok(TallyTree(entries))
  }

  // ---------------------------------------------------------------- GetCommitDistribution

  /** How many of the commits name `login` as their author. */
  function CommitsBy(cs: seq<Commit>, login: string): nat
  {
    |Filter(cs, (c: Commit) => AuthorLogin(c) == Some(login))|
  }

  /** The author logins of the commits that have one, in commit order. */
  function Logins(cs: seq<Commit>): (r: seq<string>)
    ensures |r| <= |cs|
  {
    if |cs| == 0 then []
    else
      var init, c := cs[..|cs| - 1], cs[|cs| - 1];
      match AuthorLogin(c)
      case Some(login) => Logins(init) + [login]
      case None => Logins(init)
  }

  /** Each login occurs in `Logins(cs)` once per commit it authored. */
  lemma {:induction false} LoginsCount(cs: seq<Commit>)
    ensures forall login :: multiset(Logins(cs))[login] == CommitsBy(cs, login)
    decreases |cs|
  {
    if |cs| > 0 {
      var init, c := cs[..|cs| - 1], cs[|cs| - 1];
      assert cs == init + [c];
      LoginsCount(init);
    }
  }

  lemma LoginsSnoc(cs: seq<Commit>, c: Commit)
    ensures Logins(cs + [c]) == Logins(cs) + (if AuthorLogin(c).Some? then [AuthorLogin(c).value] else [])
  {
    assert (cs + [c])[..|cs|] == cs;
  }

  /**
   `GetCommitDistribution`: each author login mapped to its number of
   listed commits; commits without an author login are not counted.
   */
  function CommitDistribution(l: Listing<Commit>): (r: Result<map<string, nat>>)
    ensures r.Err? <==> !AllFetched(l)
    ensures r.Err? ==> FailedWith(l, r.error)
    ensures r.Ok? ==> forall login :: login in r.value <==> CommitsBy(Items(l), login) > 0
    ensures r.Ok? ==> forall login :: login in r.value ==> r.value[login] == CommitsBy(Items(l), login)
    ensures r.Ok? ==> SumValues(r.value) <= |Items(l)|
  {
    match Walk(l)
    case Err(e) => Err(e)
    case Ok(cs) =>
      LoginsCount(cs);
      HistogramTotal(Logins(cs));
      Ok(Histogram(Logins(cs)))
  }

  /** The tally `h` with one more commit by `login`. */
  function Bump(h: map<string, nat>, login: string): map<string, nat>
  {
    h[login := (if login in h then h[login] else 0) + 1]
  }

  /** One more commit adds one to its author's tally, and leaves the tally alone when it has no author login. */
  lemma TallyStep(done: seq<Commit>, c: Commit)
    ensures Histogram(Logins(done + [c]))
         == if AuthorLogin(c).Some? then Bump(Histogram(Logins(done)), AuthorLogin(c).value) else Histogram(Logins(done))
  {
    LoginsSnoc(done, c);
    if AuthorLogin(c).Some? {
      HistogramSnoc(Logins(done), AuthorLogin(c).value);
    } else {
      assert Logins(done) + [] == Logins(done);
    }
  }

  /** The inner loop of `GetCommitDistribution`: one page of commits added to the tally. */
  method TallyPage(dist: map<string, nat>, ghost seen: seq<Commit>, commits: seq<Commit>) returns (next: map<string, nat>)
    requires dist == Histogram(Logins(seen))
    ensures next == Histogram(Logins(seen + commits))
  {
    next := dist;
    ghost var done := seen;
    var j := 0;
    while j < |commits|
      invariant 0 <= j <= |commits|
      invariant done == seen + commits[..j]
      invariant next == Histogram(Logins(done))
    {
      var c := commits[j];
      TallyStep(done, c);
      if c.author.Some? && c.author.value.login.Some? {
        next := Bump(next, c.author.value.login.value);
      }
      done := done + [c];
      assert done == seen + commits[..j + 1];
      j := j + 1;
    }
    assert commits[..j] == commits;
  }

  lemma CommitDistributionOfWalk(l: Listing<Commit>)
    ensures Walk(l).Err? ==> CommitDistribution(l) == Err(Walk(l).error)
    ensures Walk(l).Ok? ==> CommitDistribution(l) == Ok(Histogram(Logins(Walk(l).value)))
  {
  }

  /** The page loop of `GetCommitDistribution`; a failed page ends it with that page's error. */
  method CommitDistributionByPages(l: Listing<Commit>) returns (r: Result<map<string, nat>>)
    ensures r == CommitDistribution(l)
  {
    var dist: map<string, nat> := map[];
    ghost var seen: seq<Commit> := [];
    var i := 0;
    while i < |l|
      invariant 0 <= i <= |l|
      invariant AllFetched(l[..i])
      invariant seen == Items(l[..i])
      invariant dist == Histogram(Logins(seen))
    {
      match l[i] {
        case Failed(e) =>
          WalkFailsAt(l, i);
          CommitDistributionOfWalk(l);
          return Err(e);
        case Page(commits, _) =>
          dist := TallyPage(dist, seen, commits);
          PageStep(l, i);
          seen := seen + commits;
          i := i + 1;
      }
    }
    assert l[..i] == l;
    CommitDistributionOfWalk(l);
    return Ok(dist);
  }

  // ---------------------------------------------------------------- GetConflictRateAndCount

  /** The creation-time window of the pull-request metrics: both bounds strict. */
  predicate CreatedWithin(pr: PullRequest, start: Instant, end: Instant)
  {
    start < pr.createdAt < end
  }

  /** The detail fetch succeeded and reported the pull request as not mergeable. */
  predicate ReportsConflict(d: Option<PullRequestDetail>)
  {
    d.Some? && d.value.mergeable == Some(false)
  }

  datatype ConflictStats = ConflictStats(rate: real, count: nat)

  /** The pull requests the conflict rate looks at. */
  function InWindow(start: Instant, end: Instant): PullRequest -> bool
  {
    pr => CreatedWithin(pr, start, end)
  }

  /** The pull requests the conflict count counts. */
  function ConflictInWindow(start: Instant, end: Instant, detail: int -> Option<PullRequestDetail>): PullRequest -> bool
  {
    pr => CreatedWithin(pr, start, end) && ReportsConflict(detail(pr.number))
  }

  /** The pull requests whose detail fetch reports a conflict. */
  function Conflicting(detail: int -> Option<PullRequestDetail>): PullRequest -> bool
  {
    (pr: PullRequest) => ReportsConflict(detail(pr.number))
  }

  /** Counting conflicts among the pull requests in the window is counting with both conditions at once. */
  lemma ConflictsInWindow(prs: seq<PullRequest>, start: Instant, end: Instant, detail: int -> Option<PullRequestDetail>)
    ensures Filter(Filter(prs, InWindow(start, end)), Conflicting(detail)) == Filter(prs, ConflictInWindow(start, end, detail))
  {
    FilterFilter(prs, InWindow(start, end), Conflicting(detail), ConflictInWindow(start, end, detail));
  }

  /** The loop of `GetConflictRateAndCount` over the listed pull requests. */
  function ConflictStatsOf(
    prs: seq<PullRequest>, start: Instant, end: Instant,
    detail: int -> Option<PullRequestDetail>): (r: ConflictStats)
    ensures r.count == |Filter(prs, ConflictInWindow(start, end, detail))|
    ensures r.count <= |Filter(prs, InWindow(start, end))|
    ensures r.rate == Percent(r.count, |Filter(prs, InWindow(start, end))|)
  {
    var inWindow := Filter(prs, InWindow(start, end));
    var conflicts := Filter(inWindow, Conflicting(detail));
    ConflictsInWindow(prs, start, end, detail);
    if |inWindow| == 0 then ConflictStats(0.0, 0)
    else ConflictStats(Percent(|conflicts|, |inWindow|), |conflicts|)
  }

  /**
   `GetConflictRateAndCount`: among the pull requests created strictly
   inside the window, how many a detail fetch reports as not mergeable, and
   what percentage of them that is (0 for an empty window). A failed detail
   fetch counts the pull request as not conflicting.
   */
  function ConflictRateAndCount(
    prs: Listing<PullRequest>, start: Instant, end: Instant,
    detail: int -> Option<PullRequestDetail>): (r: Result<ConflictStats>)
    ensures r.Err? <==> !AllFetched(prs)
    ensures r.Err? ==> FailedWith(prs, r.error)
    ensures r.Ok? ==> r.value == ConflictStatsOf(Items(prs), start, end, detail)
  {
    match Walk(prs)
    case Err(e) => Err(e)
    case Ok(items) => Ok(ConflictStatsOf(items, start, end, detail))
  }

  // ---------------------------------------------------------------- GetChurnByFile

  /** The files of commit `c` churn sees: none when its SHA is nil or its detail fetch failed. */
  function ChangedFiles(c: Commit, getCommit: string -> Option<CommitDetail>): seq<CommitFile>
  {
    if c.sha.Some? && getCommit(c.sha.value).Some? then getCommit(c.sha.value).value.files else []
  }

  /** How many file entries of commit `c` carry the name `name`. */
  function EntriesNamed(c: Commit, getCommit: string -> Option<CommitDetail>, name: string): nat
  {
    |Filter(ChangedFiles(c, getCommit), (f: CommitFile) => f.filename == Some(name))|
  }

  /** How many file entries named `name` the commits' details hold in all. */
  function Touches(cs: seq<Commit>, getCommit: string -> Option<CommitDetail>, name: string): int
  {
    SumOf(cs, (c: Commit) => EntriesNamed(c, getCommit, name))
  }

  /** The names of the file entries that have one, in order. */
  function Filenames(files: seq<CommitFile>): (names: seq<string>)
    ensures forall name :: multiset(names)[name] == |Filter(files, (f: CommitFile) => f.filename == Some(name))|
  {
    if |files| == 0 then []
    else
      var init, f := files[..|files| - 1], files[|files| - 1];
      Filenames(init) + (if f.filename.Some? then [f.filename.value] else [])
  }

  /** Every file name churn counts, once per entry, over all commits. */
  function TouchedFiles(cs: seq<Commit>, getCommit: string -> Option<CommitDetail>): (names: seq<string>)
    ensures forall name :: multiset(names)[name] == Touches(cs, getCommit, name)
  {
    if |cs| == 0 then []
    else
      var init, c := cs[..|cs| - 1], cs[|cs| - 1];
      TouchedFiles(init, getCommit) + Filenames(ChangedFiles(c, getCommit))
  }

  /**
   `GetChurnByFile`: each file name mapped to the number of its entries in
   the details of the listed commits. Commits with a nil SHA and commits
   whose detail fetch fails add nothing; only a listing failure is an error.
   */
  function ChurnByFile(l: Listing<Commit>, getCommit: string -> Option<CommitDetail>): (r: Result<map<string, nat>>)
    ensures r.Err? <==> !AllFetched(l)
    ensures r.Err? ==> FailedWith(l, r.error)
    ensures r.Ok? ==> forall name :: name in r.value <==> Touches(Items(l), getCommit, name) > 0
    ensures r.Ok? ==> forall name :: name in r.value ==> r.value[name] == Touches(Items(l), getCommit, name)
  {
    match Walk(l)
    case Err(e) => Err(e)
    case Ok(cs) => Ok(Histogram(TouchedFiles(cs, getCommit)))
  }

  // ---------------------------------------------------------------- GetChurnByDir

  /** The index of the last '/' in `path[..n]`, or -1. */
  function LastSlash(path: string, n: nat): (i: int)
    requires n <= |path|
    ensures -1 <= i < n
    ensures 0 <= i ==> path[i] == '/'
    ensures forall j :: i < j < n ==> path[j] != '/'
  {
    if n == 0 then -1 else if path[n - 1] == '/' then n - 1 else LastSlash(path, n - 1)
  }

  /**
   The parent directory of a slash-separated path, as `filepath.Dir`
   returns it for clean paths: "." for a bare name, "/" directly under the
   root, otherwise everything before the last '/'.
   */
  function ParentDir(path: string): string
  {
    var i := LastSlash(path, |path|);
    if i < 0 then "." else if i == 0 then "/" else path[..i]
  }

  /** The entries of `byFile` whose names are in `keys`. */
  ghost function RestrictTo(byFile: map<string, nat>, keys: set<string>): map<string, nat>
  {
    map f | f in byFile && f in keys :: byFile[f]
  }

  /** The entries of `byFile` whose names are in `keys` and lie directly in directory `d`. */
  ghost function FilesInDir(byFile: map<string, nat>, keys: set<string>, d: string): map<string, nat>
  {
    map f | f in byFile && f in keys && ParentDir(f) == d :: byFile[f]
  }

  /** Some file of `keys` lies directly in directory `d`. */
  ghost predicate HasFileIn(keys: set<string>, d: string)
  {
    exists f :: f in keys && ParentDir(f) == d
  }

  /**
   `byDir` groups the files `keys` of `byFile` by directory: it has an
   entry exactly for the directories holding one of them, each entry sums
   the churn of its files, and the entries together sum the churn of all.
   */
  ghost predicate GroupsFiles(byDir: map<string, nat>, byFile: map<string, nat>, keys: set<string>)
  {
    && (forall d :: d in byDir <==> HasFileIn(keys, d))
    && (forall d :: d in byDir ==> byDir[d] == SumValues(FilesInDir(byFile, keys, d)))
    && SumValues(byDir) == SumValues(RestrictTo(byFile, keys))
  }

  /** Adds `n` to the entry of `d`, starting from 0. */
  function AddTo(m: map<string, nat>, d: string, n: nat): map<string, nat>
  {
    m[d := (if d in m then m[d] else 0) + n]
  }

  lemma GroupsStepKeys(acc: map<string, nat>, keys: set<string>, f: string)
    requires forall d :: d in acc <==> HasFileIn(keys, d)
    ensures forall d :: d in AddTo(acc, ParentDir(f), 0) <==> HasFileIn(keys + {f}, d)
  {
    forall d | HasFileIn(keys + {f}, d)
      ensures d in acc || d == ParentDir(f)
    {
      var g :| g in keys + {f} && ParentDir(g) == d;
      assert g in keys ==> HasFileIn(keys, d);
    }
    assert HasFileIn(keys + {f}, ParentDir(f));
  }

  lemma GroupsStepSums(acc: map<string, nat>, byFile: map<string, nat>, keys: set<string>, f: string)
    requires f in byFile && f !in keys
    requires forall d :: d in acc <==> HasFileIn(keys, d)
    requires forall d :: d in acc ==> acc[d] == SumValues(FilesInDir(byFile, keys, d))
    ensures var next := AddTo(acc, ParentDir(f), byFile[f]);
      forall d :: d in next ==> next[d] == SumValues(FilesInDir(byFile, keys + {f}, d))
  {
    var d := ParentDir(f);
    var next := AddTo(acc, d, byFile[f]);
    forall d' | d' in next
      ensures next[d'] == SumValues(FilesInDir(byFile, keys + {f}, d'))
    {
      if d' == d {
        var before := FilesInDir(byFile, keys, d);
        assert FilesInDir(byFile, keys + {f}, d) == before[f := byFile[f]];
        SumValuesUpdate(before, f, byFile[f]);
        if d !in acc {
          assert !HasFileIn(keys, d);
          assert before == map[];
        }
      } else {
        assert FilesInDir(byFile, keys + {f}, d') == FilesInDir(byFile, keys, d');
      }
    }
  }

  lemma GroupsStepTotal(acc: map<string, nat>, byFile: map<string, nat>, keys: set<string>, f: string)
    requires f in byFile && f !in keys
    requires SumValues(acc) == SumValues(RestrictTo(byFile, keys))
    ensures SumValues(AddTo(acc, ParentDir(f), byFile[f])) == SumValues(RestrictTo(byFile, keys + {f}))
  {
    var d := ParentDir(f);
    assert RestrictTo(byFile, keys + {f}) == RestrictTo(byFile, keys)[f := byFile[f]];
    SumValuesUpdate(RestrictTo(byFile, keys), f, byFile[f]);
    SumValuesUpdate(acc, d, (if d in acc then acc[d] else 0) + byFile[f]);
  }

  /** Folding one more file into its directory keeps the grouping. */
  lemma GroupsStep(acc: map<string, nat>, byFile: map<string, nat>, keys: set<string>, f: string)
    requires f in byFile && f !in keys
    requires GroupsFiles(acc, byFile, keys)
    ensures GroupsFiles(AddTo(acc, ParentDir(f), byFile[f]), byFile, keys + {f})
  {
    GroupsStepKeys(acc, keys, f);
    GroupsStepSums(acc, byFile, keys, f);
    GroupsStepTotal(acc, byFile, keys, f);
  }

  /** Folds the churn of the files `ks` into their parent directories, in order. */
  function Regroup(ks: seq<string>, byFile: map<string, nat>): (byDir: map<string, nat>)
    requires forall i :: 0 <= i < |ks| ==> ks[i] in byFile
    requires forall i, j :: 0 <= i < j < |ks| ==> ks[i] != ks[j]
    ensures GroupsFiles(byDir, byFile, set f | f in ks)
  {
    if |ks| == 0 then
      assert RestrictTo(byFile, {}) == map[];
      assert forall d :: !HasFileIn({}, d);
      map[]
    else
      var init, f := ks[..|ks| - 1], ks[|ks| - 1];
      assert (set g | g in ks) == (set g | g in init) + {f};
      var acc := Regroup(init, byFile);
      GroupsStep(acc, byFile, (set g | g in init), f);
      AddTo(acc, ParentDir(f), byFile[f])
  }

  /**
   The loop of `GetChurnByDir`: every directory mapped to the churn of the
   files directly in it, so the total churn is unchanged. Go visits the
   files in map order; the sums do not depend on it, and this model visits
   them in ascending order.
   */
  function GroupByDir(byFile: map<string, nat>): (byDir: map<string, nat>)
    ensures forall d :: d in byDir <==> exists f :: f in byFile && ParentDir(f) == d
    ensures forall d :: d in byDir ==> byDir[d] == SumValues(FilesInDir(byFile, byFile.Keys, d))
    ensures SumValues(byDir) == SumValues(byFile)
  {
    var ks := SortedElements(byFile.Keys);
    assert (set f | f in ks) == byFile.Keys;
    assert RestrictTo(byFile, byFile.Keys) == byFile;
    var byDir := Regroup(ks, byFile);
    assert GroupsFiles(byDir, byFile, byFile.Keys);
    byDir
  }

  /** `GetChurnByDir`: churn by file regrouped by directory; its error passes through. */
  function ChurnByDir(l: Listing<Commit>, getCommit: string -> Option<CommitDetail>): (r: Result<map<string, nat>>)
    ensures r.Err? <==> !AllFetched(l)
    ensures r.Err? ==> FailedWith(l, r.error)
    ensures r.Ok? ==>
      var byFile := ChurnByFile(l, getCommit).value;
      && (forall d :: d in r.value <==> exists f :: f in byFile && ParentDir(f) == d)
      && (forall d :: d in r.value ==> r.value[d] == SumValues(FilesInDir(byFile, byFile.Keys, d)))
      && SumValues(r.value) == SumValues(byFile)
  {
    match ChurnByFile(l, getCommit)
    case Err(e) => Err(e)
    case Ok(byFile) => Ok(GroupByDir(byFile))
  }
}
