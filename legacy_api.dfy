/**
 * The older provider clients (src/services/api.ts), the ones the sync hook and the background
 * worker call: no retries, no checkpoint, a sequential loop over the GitHub repositories, a
 * single Bitbucket listing of the user's pull requests, and fixed error messages.
 */
module LegacyApi {
  import opened Wrappers
  import opened Types
  import opened Chunked
  import opened Failures
  import Text
  import GithubClient
  import BitbucketClient

  type GitHubRepo = GithubClient.GitHubRepo
  type GitHubPR = GithubClient.GitHubPR

  const GITHUB_FAILURE: string := "Failed to fetch GitHub PRs. Please check your token and try again."
  const BITBUCKET_FAILURE: string := "Failed to fetch Bitbucket PRs. Please check your credentials and try again."

  /** The parameters of a pull-request listing: no sort, direction or `since`. */
  datatype PullQuery = PullQuery(owner: string, repo: string, state: string, perPage: nat)

  /** The GitHub endpoints, each called once. */
  datatype GithubApi = GithubApi(
    getAuthenticated: Attempt<string>,
    listForAuthenticatedUser: Attempt<seq<GitHubRepo>>,
    listPulls: PullQuery -> Attempt<seq<GitHubPR>>)

  function PullParams(repo: GitHubRepo, onlyOpen: bool): (q: PullQuery)
    ensures q.owner == repo.ownerLogin && q.repo == repo.name
    ensures q.state == "open" <==> onlyOpen
    ensures q.state == "open" || q.state == "all"
  {
    PullQuery(repo.ownerLogin, repo.name, if onlyOpen then "open" else "all", 100)
  }

  /** The older GitHub normalisation: as the newer one, but `imReviewer` is never set. */
  function MapGithubPull(pull: GitHubPR, repo: GitHubRepo, me: string): (pr: PullRequest)
    ensures pr == GithubClient.MapPull(pull, repo, me).(imReviewer := false)
  {
    PullRequest(
      Text.NatToString(pull.id),
      pull.title,
      pull.body.GetOr(""),
      Author(if pull.user.Some? then pull.user.value.login else "", if pull.user.Some? then pull.user.value.avatarUrl else ""),
      repo.fullName,
      pull.headRef,
      if pull.merged then Merged else if pull.state == GithubClient.GhOpen then Open else Closed,
      pull.comments,
      pull.commits,
      pull.createdAt,
      pull.updatedAt,
      Github,
      pull.htmlUrl,
      false,
      pull.requestedReviewers == Some([]),
      pull.user.Some? && pull.user.value.login == me)
  }

  /** What one repository contributes: its normalised pull requests, or nothing when its listing throws. */
  function GithubContribution(api: GithubApi, me: string, onlyOpen: bool, repo: GitHubRepo): (r: seq<PullRequest>)
    ensures api.listPulls(PullParams(repo, onlyOpen)).Threw? ==> r == []
    ensures api.listPulls(PullParams(repo, onlyOpen)).Returned? ==>
      var pulls := api.listPulls(PullParams(repo, onlyOpen)).value;
      |r| == |pulls| && forall i :: 0 <= i < |pulls| ==> r[i] == MapGithubPull(pulls[i], repo, me)
  {
    match api.listPulls(PullParams(repo, onlyOpen))
    case Threw(_) => []
    case Returned(pulls) => seq(|pulls|, i requires 0 <= i < |pulls| => MapGithubPull(pulls[i], repo, me))
  }

  function GithubContributionOf(api: GithubApi, me: string, onlyOpen: bool): GitHubRepo -> seq<PullRequest> {
    repo => GithubContribution(api, me, onlyOpen, repo)
  }

  /** What the older `fetchGithubPRs(token, onlyOpen)` resolves to. */
  function GithubResult(api: GithubApi, onlyOpen: bool): (r: Result<seq<PullRequest>, string>)
    ensures r.Err? ==> r.error == GITHUB_FAILURE
    ensures r.Err? <==> api.getAuthenticated.Threw? || api.listForAuthenticatedUser.Threw?
    ensures api.getAuthenticated.Returned? && api.listForAuthenticatedUser.Returned? ==>
      r == Ok(Gather(api.listForAuthenticatedUser.value, GithubContributionOf(api, api.getAuthenticated.value, onlyOpen)))
  {
    match api.getAuthenticated
    case Threw(_) => Err(GITHUB_FAILURE)
    case Returned(me) =>
      match api.listForAuthenticatedUser
      case Threw(_) => Err(GITHUB_FAILURE)
      case Returned(repos) => Ok(Gather(repos, GithubContributionOf(api, me, onlyOpen)))
  }

  /**
   * The older `fetchGithubPRs`: the repositories are visited one after the other in listing
   * order, and a repository whose listing throws is skipped.
   */
  method FetchGithubPRs(api: GithubApi, onlyOpen: bool) returns (result: Result<seq<PullRequest>, string>)
    ensures result == GithubResult(api, onlyOpen)
  {
    if api.getAuthenticated.Threw? || api.listForAuthenticatedUser.Threw? {
      return Err(GITHUB_FAILURE);
    }
    var me := api.getAuthenticated.value;
    var repos := api.listForAuthenticatedUser.value;
    var allPRs: seq<PullRequest> := [];
    for k := 0 to |repos|
      invariant allPRs == Gather(repos[..k], GithubContributionOf(api, me, onlyOpen))
    {
      assert repos[..k + 1][..k] == repos[..k];
      var listed := api.listPulls(PullParams(repos[k], onlyOpen));
      if listed.Returned? {
        var pulls := listed.value;
        var mapped := seq(|pulls|, i requires 0 <= i < |pulls| => MapGithubPull(pulls[i], repos[k], me));
        allPRs := allPRs + mapped;
      }
    }
    assert repos[..|repos|] == repos;
    result := Ok(allPRs);
  }

  /** A repository whose listing throws is skipped: the result is as if it were not listed. */
  lemma FailingRepoSkipped(api: GithubApi, me: string, onlyOpen: bool, repos: seq<GitHubRepo>, k: nat)
    requires k < |repos| && api.listPulls(PullParams(repos[k], onlyOpen)).Threw?
    ensures Gather(repos, GithubContributionOf(api, me, onlyOpen))
      == Gather(repos[..k], GithubContributionOf(api, me, onlyOpen))
       + Gather(repos[k + 1..], GithubContributionOf(api, me, onlyOpen))
  {
    assert GithubContribution(api, me, onlyOpen, repos[k]) == [];
    GatherSkipsEmpty(repos, k, GithubContributionOf(api, me, onlyOpen));
  }

  /**
   * A repository whose listing returns contributes its normalised pull requests, placed after
   * those of the repositories listed before it and before those listed after it.
   */
  lemma ListedRepoInPlace(api: GithubApi, me: string, onlyOpen: bool, repos: seq<GitHubRepo>, k: nat)
    requires k < |repos| && api.listPulls(PullParams(repos[k], onlyOpen)).Returned?
    ensures var pulls := api.listPulls(PullParams(repos[k], onlyOpen)).value;
      Gather(repos, GithubContributionOf(api, me, onlyOpen))
      == Gather(repos[..k], GithubContributionOf(api, me, onlyOpen))
       + seq(|pulls|, i requires 0 <= i < |pulls| => MapGithubPull(pulls[i], repos[k], me))
       + Gather(repos[k + 1..], GithubContributionOf(api, me, onlyOpen))
  {
    var pulls := api.listPulls(PullParams(repos[k], onlyOpen)).value;
    assert GithubContribution(api, me, onlyOpen, repos[k])
      == seq(|pulls|, i requires 0 <= i < |pulls| => MapGithubPull(pulls[i], repos[k], me));
    GatherAt(repos, k, GithubContributionOf(api, me, onlyOpen));
  }

  type UserBody = BitbucketClient.UserBody
  type PageBody = BitbucketClient.PageBody
  type BitbucketPR = BitbucketClient.BitbucketPR

  /** The Bitbucket endpoints, each called once. */
  datatype BitbucketApi = BitbucketApi(
    user: BitbucketClient.FetchOutcome<UserBody>,
    pullRequests: string -> BitbucketClient.FetchOutcome<PageBody>)

  const PULL_REQUESTS_ENDPOINT: string := "https://api.bitbucket.org/2.0/pullrequests/"

  /** A template-literal rendering of a possibly undefined string. */
  function Rendered(s: Option<string>): string {
    s.GetOr("undefined")
  }

  /** `'https://api.bitbucket.org/2.0/pullrequests/' + user_id`, then `+= '?state=OPEN'` when only open ones are wanted. */
  function PullRequestsUrl(userId: Option<string>, onlyOpen: bool): (url: string)
    ensures |PULL_REQUESTS_ENDPOINT| <= |url| && url[..|PULL_REQUESTS_ENDPOINT|] == PULL_REQUESTS_ENDPOINT
    ensures onlyOpen ==> |url| >= 11 && url[|url| - 11..] == "?state=OPEN"
    ensures !onlyOpen ==> url[|PULL_REQUESTS_ENDPOINT|..] == Rendered(userId)
    ensures onlyOpen ==>
      |url| == |PULL_REQUESTS_ENDPOINT| + |Rendered(userId)| + 11 && url[|PULL_REQUESTS_ENDPOINT|..|url| - 11] == Rendered(userId)
  {
    var url := PULL_REQUESTS_ENDPOINT + Rendered(userId);
    if onlyOpen then url + "?state=OPEN" else url
  }

  /** Without an `account_id` in the user body, the listing asked for is that of the user "undefined". */
  lemma UrlOfMissingAccount()
    ensures PullRequestsUrl(None, false) == "https://api.bitbucket.org/2.0/pullrequests/undefined"
    ensures PullRequestsUrl(None, true) == "https://api.bitbucket.org/2.0/pullrequests/undefined?state=OPEN"
  {
  }

  /** The older status mapping: only `MERGED` is told apart, so a declined pull request shows as open. */
  function MapBitbucketState(state: string): (s: Status)
    ensures s != Closed
    ensures s == Merged <==> state == "MERGED"
  {
    if state == "MERGED" then Merged else Open
  }

  /** The two generations agree on every state except `DECLINED`, which the older one reports as open. */
  lemma BitbucketStateGenerations(state: string)
    ensures state != "DECLINED" ==> MapBitbucketState(state) == BitbucketClient.MapState(state)
    ensures state == "DECLINED" ==> MapBitbucketState(state) == Open && BitbucketClient.MapState(state) == Closed
  {
  }

  /** The older Bitbucket normalisation. */
  function MapBitbucketPull(pull: BitbucketPR, userId: Option<string>): (pr: PullRequest)
    ensures pr.source == Bitbucket && !pr.imReviewer
    ensures pr.status == MapBitbucketState(pull.state)
    ensures pr.reviewed <==> pull.reviewers == Some([])
    ensures pr.isOwner <==> userId == Some(pull.author.accountId)
  {
    PullRequest(
      Text.NatToString(pull.id),
      pull.title,
      pull.description.GetOr(""),
      Author(pull.author.displayName, pull.author.avatarHref),
      pull.destinationFullName,
      pull.sourceBranch,
      MapBitbucketState(pull.state),
      pull.commentCount,
      pull.commitCount.GetOr(0),
      pull.createdOn,
      pull.updatedOn,
      Bitbucket,
      pull.htmlHref,
      false,
      pull.reviewers == Some([]),
      userId == Some(pull.author.accountId))
  }

  /** A response that resolved with `ok`; everything else makes the older client throw. */
  predicate IsOk<B>(o: BitbucketClient.FetchOutcome<B>) {
    o.Responded? && o.response.ok
  }

  /**
   * What the older `fetchBitbucketPRs(username, appPassword, onlyOpen)` resolves to: every
   * failure, including a listing without `values`, becomes the same fixed error.
   */
  function BitbucketResult(api: BitbucketApi, onlyOpen: bool): (r: Result<seq<PullRequest>, string>)
    ensures r.Err? ==> r.error == BITBUCKET_FAILURE
    ensures r.Ok? ==> (IsOk(api.user)
      && var listing := api.pullRequests(PullRequestsUrl(api.user.response.body.accountId, onlyOpen));
         IsOk(listing) && listing.response.body.values.Some?
         && |r.value| == |listing.response.body.values.value|
         && forall i :: 0 <= i < |r.value| ==>
              r.value[i] == MapBitbucketPull(listing.response.body.values.value[i], api.user.response.body.accountId))
    ensures (IsOk(api.user)
      && var listing := api.pullRequests(PullRequestsUrl(api.user.response.body.accountId, onlyOpen));
         IsOk(listing) && listing.response.body.values.Some?) ==> r.Ok?
  {
    if !IsOk(api.user) then Err(BITBUCKET_FAILURE)
    else
      var userId := api.user.response.body.accountId;
      var listing := api.pullRequests(PullRequestsUrl(userId, onlyOpen));
      if !IsOk(listing) then Err(BITBUCKET_FAILURE)
      else match listing.response.body.values
        case None => Err(BITBUCKET_FAILURE)
        case Some(pulls) => Ok(seq(|pulls|, i requires 0 <= i < |pulls| => MapBitbucketPull(pulls[i], userId)))
  }
}
