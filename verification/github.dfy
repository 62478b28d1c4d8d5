/**
 The records the hosting platform returns, reduced to the fields the
 metrics read. A field the client library exposes as a pointer is an
 `Option` here (nil = `None`).
 */
module GitHub {
  import opened Common

  /** One entry of a recursive git tree. */
  datatype TreeEntry = TreeEntry(kind: Option<string>, size: Option<int>)

  datatype User = User(login: Option<string>)

  /** The git part of a listed commit. */
  datatype CommitInfo = CommitInfo(message: Option<string>)

  /** A commit as returned by the commit listing. */
  datatype Commit = Commit(sha: Option<string>, author: Option<User>, commit: Option<CommitInfo>)

  datatype CommitFile = CommitFile(filename: Option<string>)

  /** A commit fetched on its own, with the files it changed. */
  datatype CommitDetail = CommitDetail(files: seq<CommitFile>)

  datatype PullRequest = PullRequest(
    number: int,
    createdAt: Instant,
    closedAt: Option<Instant>,
    mergedAt: Option<Instant>)

  /** The mergeability a single-pull-request fetch reports. */
  datatype PullRequestDetail = PullRequestDetail(mergeable: Option<bool>, mergeableState: Option<string>)

  /** A review; `reviewer` is the login of its user, `None` when the user is nil. */
  datatype Review = Review(reviewer: Option<string>)

  datatype Label = Label(name: Option<string>)

  datatype Issue = Issue(number: int, createdAt: Instant, closedAt: Option<Instant>, labels: seq<Label>)

  datatype WorkflowRun = WorkflowRun(conclusion: Option<string>, runAttempt: Option<int>)

  datatype Workflow = Workflow(id: int, name: Option<string>)

  /** The login of a commit's author, when both the author and the login are present. */
  function AuthorLogin(c: Commit): Option<string>
  {
    if c.author.Some? then c.author.value.login else None
  }

  /** The commit message, when the git part and its message are present. */
  function Message(c: Commit): Option<string>
  {
    if c.commit.Some? then c.commit.value.message else None
  }
}
