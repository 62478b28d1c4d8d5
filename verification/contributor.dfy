/**
 The metric of analyzer/contributor.go: the distinct authors of the listed
 commits, counted and listed.
 */
module ContributorMetrics {
  import opened Common
  import opened Folds
  import opened Helpers
  import opened GitHub
  import opened Paging
  import opened CommitMetrics

  /** A login appears among the logins exactly when some commit has it as author login. */
  lemma {:induction false} LoginsMembership(cs: seq<Commit>)
    ensures forall login :: login in Logins(cs) <==> exists c :: c in cs && AuthorLogin(c) == Some(login)
    decreases |cs|
  {
    if |cs| > 0 {
      var init, c := cs[..|cs| - 1], cs[|cs| - 1];
      assert cs == init + [c];
      LoginsMembership(init);
      assert forall x :: x in cs <==> x in init || x == c;
    }
  }

  datatype Contributors = Contributors(count: nat, usernames: seq<string>)

  /** The set the page loop fills: the author logins of the commits. */
  function ContributorSet(cs: seq<Commit>): (s: set<string>)
    ensures |s| <= |cs|
    ensures forall login :: login in s <==> exists c :: c in cs && AuthorLogin(c) == Some(login)
  {
    var logins := Logins(cs);
    ElementsCardinality(logins);
    LoginsMembership(cs);
    set login | login in logins
  }

  /**
   `GetUniqueContributors`: the number of distinct author logins over the
   listed commits, and those logins, each once. Commits without an author
   login are not counted.
   */
  function UniqueContributors(l: Listing<Commit>): (r: Result<Contributors>)
    ensures r.Err? <==> !AllFetched(l)
    ensures r.Err? ==> FailedWith(l, r.error)
    ensures r.Ok? ==> forall login :: login in r.value.usernames <==>
                        exists c :: c in Items(l) && AuthorLogin(c) == Some(login)
    ensures r.Ok? ==> r.value.count == |r.value.usernames| <= |Items(l)|
    ensures r.Ok? ==> forall i, j :: 0 <= i < j < |r.value.usernames| ==> r.value.usernames[i] != r.value.usernames[j]
  {
    match Walk(l)
    case Err(e) => Err(e)
    case Ok(cs) =>
      var unique := ContributorSet(cs);
      Ok(Contributors(|unique|, Usernames(unique)))
  }

  /** Over the same listing, the contributors are exactly the keys of the commit distribution. */
  lemma ContributorsAreDistributionKeys(l: Listing<Commit>)
    requires AllFetched(l)
    ensures forall login :: login in UniqueContributors(l).value.usernames <==> login in CommitDistribution(l).value
  {
    var cs := Items(l);
    LoginsMembership(cs);
    LoginsCount(cs);
    forall login
      ensures (exists c :: c in cs && AuthorLogin(c) == Some(login)) <==> CommitsBy(cs, login) > 0
    {
      assert login in Logins(cs) <==> multiset(Logins(cs))[login] > 0;
    }
  }
}
