/**
 * The checkpoint-aware GitHub client (src/services/github/api.ts): retries on server errors
 * and rate limiting, the repository and pull-request queries, the chunked loop over
 * repositories and the normalisation of GitHub pull requests.
 *
 * The GitHub REST API is a parameter: each endpoint is a function from the request and the
 * attempt number (0 for the first call of that request) to what the call returned or threw.
 */
module GithubClient {
  import opened Wrappers
  import opened Seqs
  import opened Text
  import opened Types
  import opened Chunked
  import opened Failures

  const MAX_RETRIES: nat := 3
  const RETRY_DELAY: nat := 1000
  const CHUNK_SIZE: nat := 5
  const CHUNK_DELAY: nat := 100

  /** A failure worth retrying: an `Error` with status 5xx or 429. */
  predicate IsRetryable(e: Thrown) {
    e.isError && e.status.Some? && (e.status.value >= 500 || e.status.value == 429)
  }

  /** The final outcome of a retried operation and the number of `RETRY_DELAY` waits before it. */
  datatype Retried<T> = Retried(outcome: Attempt<T>, waits: nat)

  /**
   * `retryOperation(operation, retries)` where `operation(n)` is the outcome of its n-th call
   * and `call` calls have already been made. The result is the outcome of the first call that
   * returns, throws a non-retryable failure, or is the last one the budget allows; every call
   * before it threw a retryable failure and was followed by one wait.
   */
  function RetryFrom<T>(operation: nat -> Attempt<T>, retries: nat, call: nat): (r: Retried<T>)
    ensures r.waits <= retries
    ensures r.outcome == operation(call + r.waits)
    ensures forall c :: call <= c < call + r.waits ==> operation(c).Threw? && IsRetryable(operation(c).error)
    ensures r.outcome.Threw? ==> !IsRetryable(r.outcome.error) || r.waits == retries
    decreases retries
  {
    match operation(call)
    case Returned(v) => Retried(Returned(v), 0)
    case Threw(e) =>
      if retries > 0 && IsRetryable(e) then
        var rest := RetryFrom(operation, retries - 1, call + 1);
        Retried(rest.outcome, rest.waits + 1)
      else
        Retried(Threw(e), 0)
  }

  /** `retryOperation(operation)` with the default budget of `MAX_RETRIES` retries. */
  function RetryOperation<T>(operation: nat -> Attempt<T>): Retried<T> {
    RetryFrom(operation, MAX_RETRIES, 0)
  }

  /** At most four calls are made, and a call that returns ends the retries at once. */
  lemma RetryOperationBounds<T>(operation: nat -> Attempt<T>)
    ensures RetryOperation(operation).waits <= 3
    ensures operation(0).Returned? ==> RetryOperation(operation) == Retried(operation(0), 0)
    ensures operation(0).Threw? && !IsRetryable(operation(0).error) ==> RetryOperation(operation) == Retried(operation(0), 0)
  {
  }

  function ServerError(status: int): Thrown {
    Thrown(true, Some(status), "Server Error")
  }

  function TwoOutagesThenSuccess(n: nat): Attempt<int> {
    if n < 2 then Threw(ServerError(503)) else Returned(42)
  }

  function NotFound(n: nat): Attempt<int> {
    Threw(ServerError(404))
  }

  function RateLimited(n: nat): Attempt<int> {
    Threw(ServerError(429))
  }

  /** Two 503 responses and then a success: two waits, and the success is returned. */
  lemma RetryRecoversFromServerErrors()
    ensures RetryOperation(TwoOutagesThenSuccess) == Retried(Returned(42), 2)
  {
    assert RetryFrom(TwoOutagesThenSuccess, 1, 2) == Retried(Returned(42), 0);
  }

  /** A 404 is thrown at once, without waiting. */
  lemma RetryDoesNotRetryNotFound()
    ensures RetryOperation(NotFound) == Retried(Threw(ServerError(404)), 0)
  {
  }

  /** A server that keeps answering 429 is called four times; the fourth failure is thrown after three waits. */
  lemma RetryGivesUpAfterThreeRetries()
    ensures RetryOperation(RateLimited) == Retried(Threw(ServerError(429)), 3)
  {
    assert RetryFrom(RateLimited, 0, 3) == Retried(Threw(ServerError(429)), 0);
    assert RetryFrom(RateLimited, 1, 2) == Retried(Threw(ServerError(429)), 1);
    assert RetryFrom(RateLimited, 2, 1) == Retried(Threw(ServerError(429)), 2);
  }

  /** `GitHubRepo`. */
  datatype GitHubRepo = GitHubRepo(ownerLogin: string, name: string, fullName: string)

  /** The `user` of a GitHub pull request. */
  datatype PullUser = PullUser(login: string, avatarUrl: string)

  datatype GhState = GhOpen | GhClosed

  /** `GitHubPR`; `requestedReviewers` holds the reviewers' logins, `None` for `null`. */
  datatype GitHubPR = GitHubPR(
    id: nat,
    title: string,
    body: Option<string>,
    user: Option<PullUser>,
    headRef: string,
    state: GhState,
    merged: bool,
    comments: nat,
    commits: nat,
    createdAt: string,
    updatedAt: string,
    htmlUrl: string,
    requestedReviewers: Option<seq<string>>)

  /** The parameters of the repository listing. */
  datatype RepoQuery = RepoQuery(sort: string, perPage: nat, since: Option<string>)

  /** The parameters of a pull-request listing. */
  datatype PullQuery = PullQuery(
    owner: string, repo: string, state: string, perPage: nat, sort: string, direction: string, since: Option<string>)

  /** `...(lastSync && { since: lastSync })`: an absent or empty `lastSync` adds nothing. */
  function Since(lastSync: Option<string>): (since: Option<string>)
    ensures since.Some? <==> lastSync.Some? && lastSync.value != ""
    ensures since.Some? ==> since == lastSync
  {
    if lastSync.Some? && lastSync.value != "" then lastSync else None
  }

  /** The repositories of the user, most recently updated first, 100 per page. */
  function RepoParams(lastSync: Option<string>): (q: RepoQuery)
    ensures q.sort == "updated" && q.perPage == 100
    ensures q.since == Since(lastSync)
  {
    RepoQuery("updated", 100, Since(lastSync))
  }

  /** The pull requests of one repository, open ones only or all of them, newest update first. */
  function PullParams(repo: GitHubRepo, onlyOpen: bool, lastSync: Option<string>): (q: PullQuery)
    ensures q.owner == repo.ownerLogin && q.repo == repo.name
    ensures q.state == "open" <==> onlyOpen
    ensures q.state == "open" || q.state == "all"
    ensures q.since == Since(lastSync)
  {
    PullQuery(repo.ownerLogin, repo.name, if onlyOpen then "open" else "all", 100, "updated", "desc", Since(lastSync))
  }

  /** The GitHub REST endpoints the client calls, as seen with one token. */
  datatype GithubApi = GithubApi(
    getAuthenticated: nat -> Attempt<string>,
    listForAuthenticatedUser: RepoQuery -> nat -> Attempt<seq<GitHubRepo>>,
    listPulls: PullQuery -> nat -> Attempt<seq<GitHubPR>>)

  /** `Boolean(requested_reviewers?.find(r => r.login === login))`. */
  predicate IsRequestedReviewer(pull: GitHubPR, login: string) {
    pull.requestedReviewers.Some? && login in pull.requestedReviewers.value
  }

  /** The pull request normalised to the extension's record, for the user `me`. */
  function MapPull(pull: GitHubPR, repo: GitHubRepo, me: string): (pr: PullRequest)
    ensures pr.source == Github && pr.repository == repo.fullName
    ensures ParseInt(pr.id) == Some(pull.id as int)
    ensures pr.status == Merged <==> pull.merged
    ensures pr.status == Closed <==> !pull.merged && pull.state == GhClosed
    ensures pr.imReviewer <==> IsRequestedReviewer(pull, me)
    ensures pr.reviewed <==> pull.requestedReviewers == Some([])
    ensures pr.isOwner <==> pull.user.Some? && pull.user.value.login == me
    ensures pr.description == pull.body.GetOr("")
  {
    ParseIntOfNatToString(pull.id, []);
    assert NatToString(pull.id) + [] == NatToString(pull.id);
    PullRequest(
      NatToString(pull.id),
      pull.title,
      pull.body.GetOr(""),
      Author(if pull.user.Some? then pull.user.value.login else "", if pull.user.Some? then pull.user.value.avatarUrl else ""),
      repo.fullName,
      pull.headRef,
      if pull.merged then Merged else if pull.state == GhOpen then Open else Closed,
      pull.comments,
      pull.commits,
      pull.createdAt,
      pull.updatedAt,
      Github,
      pull.htmlUrl,
      IsRequestedReviewer(pull, me),
      pull.requestedReviewers == Some([]),
      pull.user.Some? && pull.user.value.login == me)
  }

  /** A pull request awaiting the user's review is never also marked as reviewed. */
  lemma ReviewerFlagsExclusive(pull: GitHubPR, repo: GitHubRepo, me: string)
    ensures !(MapPull(pull, repo, me).imReviewer && MapPull(pull, repo, me).reviewed)
  {
  }

  function MapPulls(pulls: seq<GitHubPR>, repo: GitHubRepo, me: string): (prs: seq<PullRequest>)
    ensures |prs| == |pulls|
    ensures forall i :: 0 <= i < |pulls| ==> prs[i] == MapPull(pulls[i], repo, me)
  {
    seq(|pulls|, i requires 0 <= i < |pulls| => MapPull(pulls[i], repo, me))
  }

  /** Pull requests with distinct GitHub ids normalise to records with distinct keys. */
  lemma MapPullsDistinctKeys(pulls: seq<GitHubPR>, repo: GitHubRepo, me: string)
    requires forall i, j :: 0 <= i < j < |pulls| ==> pulls[i].id != pulls[j].id
    ensures DistinctBy(MapPulls(pulls, repo, me), Key)
  {
    var prs := MapPulls(pulls, repo, me);
    forall i, j | 0 <= i < j < |prs| ensures Key(prs[i]) != Key(prs[j]) {
      NatToStringInjective(pulls[i].id, pulls[j].id);
      KeyInjective(prs[i], prs[j]);
    }
  }

  /**
   * What one repository contributes: its pull requests, normalised, when the retried
   * listing returns, and nothing when it throws.
   */
  function RepoContribution(api: GithubApi, me: string, onlyOpen: bool, lastSync: Option<string>, repo: GitHubRepo): (prs: seq<PullRequest>)
    ensures RetryOperation(api.listPulls(PullParams(repo, onlyOpen, lastSync))).outcome.Threw? ==> prs == []
    ensures RetryOperation(api.listPulls(PullParams(repo, onlyOpen, lastSync))).outcome.Returned? ==>
      prs == MapPulls(RetryOperation(api.listPulls(PullParams(repo, onlyOpen, lastSync))).outcome.value, repo, me)
  {
    match RetryOperation(api.listPulls(PullParams(repo, onlyOpen, lastSync))).outcome
    case Returned(pulls) => MapPulls(pulls, repo, me)
    case Threw(_) => []
  }

  /** The per-repository callback of the chunk loop. */
  function ContributionOf(api: GithubApi, me: string, onlyOpen: bool, lastSync: Option<string>): GitHubRepo -> seq<PullRequest> {
    repo => RepoContribution(api, me, onlyOpen, lastSync, repo)
  }

  function ErrorPrefix(): string { "GitHub API Error: " }

  function ErrorSuffix(): string { ". Please check your token and try again." }

  /** The message of the error `fetchGithubPRs` throws when anything outside the per-repository loop fails. */
  function WrapError(e: Thrown): string {
    ErrorPrefix() + (if e.isError then e.message else "Failed to fetch GitHub PRs") + ErrorSuffix()
  }

  /** The wrapped message keeps the original one, which can be read back between the fixed prefix and suffix. */
  lemma WrapErrorKeepsMessage(e: Thrown)
    requires e.isError
    ensures var m := WrapError(e);
      |ErrorPrefix()| + |ErrorSuffix()| <= |m|
      && m[..|ErrorPrefix()|] == ErrorPrefix()
      && m[|ErrorPrefix()|..|m| - |ErrorSuffix()|] == e.message
  {
  }

  /**
   * What `fetchGithubPRs(token, onlyOpen, lastSync)` resolves to: the normalised pull requests of
   * every repository, in repository order, or the wrapped error when the user or the repository
   * list cannot be fetched.
   */
  function FetchResult(api: GithubApi, onlyOpen: bool, lastSync: Option<string>): Result<seq<PullRequest>, string> {
    match RetryOperation(api.getAuthenticated).outcome
    case Threw(e) => Err(WrapError(e))
    case Returned(me) =>
      match RetryOperation(api.listForAuthenticatedUser(RepoParams(lastSync))).outcome
      case Threw(e) => Err(WrapError(e))
      case Returned(repos) => Ok(Gather(repos, ContributionOf(api, me, onlyOpen, lastSync)))
  }

  /**
   * `fetchGithubPRs`: fetches the user and the repositories with retries, then walks the
   * repositories in chunks of 5, pausing 100 ms between chunks. `pauses` counts those pauses.
   */
  method FetchGithubPRs(api: GithubApi, onlyOpen: bool, lastSync: Option<string>)
    returns (result: Result<seq<PullRequest>, string>, pauses: nat)
    ensures result == FetchResult(api, onlyOpen, lastSync)
    ensures result.Err? ==> pauses == 0
    ensures result.Ok? ==> exists repos: seq<GitHubRepo> ::
      RetryOperation(api.listForAuthenticatedUser(RepoParams(lastSync))).outcome == Returned(repos)
      && (repos == [] ==> pauses == 0)
      && (repos != [] ==> pauses * CHUNK_SIZE < |repos| <= (pauses + 1) * CHUNK_SIZE)
  {
    pauses := 0;
    var user := RetryOperation(api.getAuthenticated);
    if user.outcome.Threw? {
      return Err(WrapError(user.outcome.error)), 0;
    }
    var me := user.outcome.value;
    var listed := RetryOperation(api.listForAuthenticatedUser(RepoParams(lastSync)));
    if listed.outcome.Threw? {
      return Err(WrapError(listed.outcome.error)), 0;
    }
    var repos := listed.outcome.value;
    var all, chunks;
    all, chunks, pauses := ChunkedGather(repos, CHUNK_SIZE, ContributionOf(api, me, onlyOpen, lastSync));
    result := Ok(all);
  }

  /** A repository whose listing throws drops out of the result; the other repositories still contribute. */
  lemma FailingRepoContributesNothing(api: GithubApi, me: string, onlyOpen: bool, lastSync: Option<string>, repos: seq<GitHubRepo>, k: nat)
    requires k < |repos|
    requires RetryOperation(api.listPulls(PullParams(repos[k], onlyOpen, lastSync))).outcome.Threw?
    ensures Gather(repos, ContributionOf(api, me, onlyOpen, lastSync))
      == Gather(repos[..k], ContributionOf(api, me, onlyOpen, lastSync))
       + Gather(repos[k + 1..], ContributionOf(api, me, onlyOpen, lastSync))
  {
    assert RepoContribution(api, me, onlyOpen, lastSync, repos[k]) == [];
    GatherSkipsEmpty(repos, k, ContributionOf(api, me, onlyOpen, lastSync));
  }
}
