/**
 * The checkpoint-aware Bitbucket client (src/services/bitbucket/api.ts): `fetch` with
 * retries, the pull-request query of a whitelisted repository, the chunked loop over the
 * whitelist and the normalisation of Bitbucket pull requests.
 *
 * The Bitbucket Cloud REST API is a parameter: each endpoint is a function from the request
 * URL and the attempt number to the response received or the network error thrown.
 */
module BitbucketClient {
  import opened Wrappers
  import opened Text
  import opened Types
  import opened Chunked
  import opened Failures
  import opened UrlSearch

  const MAX_RETRIES: nat := 3
  const RETRY_DELAY: nat := 1000
  const CHUNK_SIZE: nat := 3
  const CHUNK_DELAY: nat := 200

  /** A `Response`: its `ok` flag, its status and its parsed JSON body. */
  datatype Response<B> = Response(ok: bool, status: nat, body: B)

  /** What one `fetch` call resolved to, or the error it rejected with. */
  datatype FetchOutcome<B> = Responded(response: Response<B>) | NetworkError(error: Thrown)

  /** One attempt inside `fetchWithRetry`'s `try`: a response that is not `ok` is thrown. */
  function CheckOk<B>(o: FetchOutcome<B>): (a: Attempt<Response<B>>)
    ensures a.Returned? <==> o.Responded? && o.response.ok
    ensures a.Returned? ==> a.value == o.response
  {
    match o
    case NetworkError(e) => Threw(e)
    case Responded(r) =>
      if r.ok then Returned(r)
      else Threw(Thrown(true, None, "HTTP error! status: " + NatToString(r.status)))
  }

  datatype Fetched<B> = Fetched(outcome: Attempt<Response<B>>, waits: nat)

  /**
   * `fetchWithRetry(url, options, retries)` where `fetch(n)` is the n-th call and `call` calls
   * were made before. Every failure is retried while the budget lasts, whatever its cause.
   */
  function FetchWithRetryFrom<B>(fetch: nat -> FetchOutcome<B>, retries: nat, call: nat): (r: Fetched<B>)
    ensures r.waits <= retries
    ensures r.outcome == CheckOk(fetch(call + r.waits))
    ensures forall c :: call <= c < call + r.waits ==> CheckOk(fetch(c)).Threw?
    ensures r.outcome.Threw? ==> r.waits == retries
    decreases retries
  {
    match CheckOk(fetch(call))
    case Returned(resp) => Fetched(Returned(resp), 0)
    case Threw(e) =>
      if retries > 0 then
        var rest := FetchWithRetryFrom(fetch, retries - 1, call + 1);
        Fetched(rest.outcome, rest.waits + 1)
      else
        Fetched(Threw(e), 0)
  }

  function FetchWithRetry<B>(fetch: nat -> FetchOutcome<B>): Fetched<B> {
    FetchWithRetryFrom(fetch, MAX_RETRIES, 0)
  }

  function NotFoundResponse(n: nat): FetchOutcome<int> {
    Responded(Response(false, 404, 0))
  }

  /**
   * Unlike the GitHub client, a 404 is retried: four calls, three waits, and the last
   * failure, reworded as an HTTP error, is thrown.
   */
  lemma FetchRetriesEvenNotFound()
    ensures FetchWithRetry(NotFoundResponse) == Fetched(Threw(Thrown(true, None, "HTTP error! status: 404")), 3)
  {
    assert NatToString(404) == "404";
    var e := Thrown(true, None, "HTTP error! status: 404");
    assert FetchWithRetryFrom(NotFoundResponse, 0, 3) == Fetched(Threw(e), 0);
    assert FetchWithRetryFrom(NotFoundResponse, 1, 2) == Fetched(Threw(e), 1);
    assert FetchWithRetryFrom(NotFoundResponse, 2, 1) == Fetched(Threw(e), 2);
  }

  /** `BitbucketUser`, as it appears as author and reviewer. */
  datatype BitbucketUser = BitbucketUser(accountId: string, displayName: string, avatarHref: string)

  /** `BitbucketParticipant`. */
  datatype Participant = Participant(accountId: string, approved: bool)

  /**
   * `BitbucketPR`; optional fields are `None` when absent, and `commitCount` stands for the
   * length of `commits`.
   */
  datatype BitbucketPR = BitbucketPR(
    id: nat,
    title: string,
    description: Option<string>,
    author: BitbucketUser,
    destinationFullName: string,
    sourceBranch: string,
    state: string,
    commentCount: nat,
    commitCount: Option<nat>,
    createdOn: string,
    updatedOn: string,
    htmlHref: string,
    reviewers: Option<seq<BitbucketUser>>,
    participants: Option<seq<Participant>>)

  /** The body of `GET /2.0/user`; `accountId` is `None` when absent. */
  datatype UserBody = UserBody(accountId: Option<string>)

  /** The body of a pull-request page; `values` is `None` when absent. */
  datatype PageBody = PageBody(values: Option<seq<BitbucketPR>>)

  /** `pull.reviewers?.some(r => r.account_id === user_id) || false`. */
  predicate IsReviewer(pull: BitbucketPR, userId: Option<string>) {
    userId.Some? && pull.reviewers.Some?
    && exists k :: 0 <= k < |pull.reviewers.value| && pull.reviewers.value[k].accountId == userId.value
  }

  /** `pull.participants?.some(p => p.account_id === user_id && p.approved) || false`. */
  predicate HasApproved(pull: BitbucketPR, userId: Option<string>) {
    userId.Some? && pull.participants.Some?
    && exists k :: (0 <= k < |pull.participants.value|
      && pull.participants.value[k].accountId == userId.value && pull.participants.value[k].approved)
  }

  /** Bitbucket's `MERGED` and `DECLINED` become merged and closed; every other state is open. */
  function MapState(state: string): (s: Status)
    ensures s == Merged <==> state == "MERGED"
    ensures s == Closed <==> state == "DECLINED"
  {
    if state == "MERGED" then Merged else if state == "DECLINED" then Closed else Open
  }

  /** The pull request normalised to the extension's record, for the user `userId`. */
  function MapPull(pull: BitbucketPR, userId: Option<string>): (pr: PullRequest)
    ensures pr.source == Bitbucket && pr.repository == pull.destinationFullName
    ensures ParseInt(pr.id) == Some(pull.id as int)
    ensures pr.status == MapState(pull.state)
    ensures pr.imReviewer <==> IsReviewer(pull, userId)
    ensures pr.reviewed <==> HasApproved(pull, userId)
    ensures pr.isOwner <==> userId == Some(pull.author.accountId)
    ensures pr.commits == pull.commitCount.GetOr(0)
    ensures userId.None? ==> !pr.imReviewer && !pr.reviewed && !pr.isOwner
  {
    ParseIntOfNatToString(pull.id, []);
    assert NatToString(pull.id) + [] == NatToString(pull.id);
    PullRequest(
      NatToString(pull.id),
      pull.title,
      pull.description.GetOr(""),
      Author(pull.author.displayName, pull.author.avatarHref),
      pull.destinationFullName,
      pull.sourceBranch,
      MapState(pull.state),
      pull.commentCount,
      pull.commitCount.GetOr(0),
      pull.createdOn,
      pull.updatedOn,
      Bitbucket,
      pull.htmlHref,
      IsReviewer(pull, userId),
      HasApproved(pull, userId),
      userId == Some(pull.author.accountId))
  }

  function MapPulls(pulls: seq<BitbucketPR>, userId: Option<string>): (prs: seq<PullRequest>)
    ensures |prs| == |pulls|
    ensures forall i :: 0 <= i < |pulls| ==> prs[i] == MapPull(pulls[i], userId)
  {
    seq(|pulls|, i requires 0 <= i < |pulls| => MapPull(pulls[i], userId))
  }

  /** `lastSync` is truthy: given and not empty. */
  predicate IsSet(lastSync: Option<string>) {
    lastSync.Some? && lastSync.value != ""
  }

  const STATE_QUERY: string := "state = \"OPEN\""

  /** The `updated_on` clause for a checkpoint whose local start of day is written `dayStartIso`. */
  function UpdatedClause(dayStartIso: string): string {
    "updated_on > \"" + dayStartIso + "\""
  }

  /**
   * The query pairs of one repository's pull-request request: an optional `q` filter from
   * the checkpoint and the open-only flag, then `pagelen=50`. `dayStart` gives the ISO form of
   * the local start of day of a checkpoint.
   */
  function QueryEntries(lastSync: Option<string>, onlyOpen: bool, dayStart: string -> string): seq<(string, string)> {
    var filter :=
      if IsSet(lastSync) && onlyOpen then [("q", UpdatedClause(dayStart(lastSync.value)) + " AND " + STATE_QUERY)]
      else if IsSet(lastSync) then [("q", UpdatedClause(dayStart(lastSync.value)))]
      else if onlyOpen then [("q", STATE_QUERY)]
      else [];
    filter + [("pagelen", "50")]
  }

  /**
   * The query-building steps: append the `updated_on` clause when there is a checkpoint, then
   * set `q` to that clause joined with the open-state clause, or to the open-state clause alone,
   * when only open pull requests are wanted, then append `pagelen=50`.
   */
  method BuildQuery(lastSync: Option<string>, onlyOpen: bool, dayStart: string -> string) returns (query: SearchParams)
    ensures fresh(query)
    ensures query.entries == QueryEntries(lastSync, onlyOpen, dayStart)
  {
    query := new SearchParams();
    if IsSet(lastSync) {
      query.Append("q", UpdatedClause(dayStart(lastSync.value)));
    }
    if onlyOpen {
      var q := if IsSet(lastSync) then query.Get("q").GetOr("null") + " AND " + STATE_QUERY else STATE_QUERY;
      query.Set("q", q);
    }
    query.Append("pagelen", "50");
  }

  /**
   * The four shapes of the `q` filter, and `pagelen=50` is always the last pair, so the
   * query string is never empty.
   */
  lemma QueryShapes(lastSync: Option<string>, onlyOpen: bool, dayStart: string -> string)
    ensures var entries := QueryEntries(lastSync, onlyOpen, dayStart);
      && entries[|entries| - 1] == ("pagelen", "50")
      && (FirstValue(entries, "q").None? <==> !IsSet(lastSync) && !onlyOpen)
      && (!IsSet(lastSync) && onlyOpen ==> FirstValue(entries, "q") == Some(STATE_QUERY))
      && (IsSet(lastSync) && !onlyOpen ==> FirstValue(entries, "q") == Some(UpdatedClause(dayStart(lastSync.value))))
      && (IsSet(lastSync) && onlyOpen ==>
            FirstValue(entries, "q") == Some(UpdatedClause(dayStart(lastSync.value)) + " AND " + STATE_QUERY))
      && Serialize(entries) != []
  {
    var entries := QueryEntries(lastSync, onlyOpen, dayStart);
    SerializeEmptyIff(entries);
    if IsSet(lastSync) || onlyOpen {
      assert entries[0].0 == "q";
    } else {
      assert entries == [("pagelen", "50")];
    }
  }

  function BaseUrl(fullName: string): string {
    "https://api.bitbucket.org/2.0/repositories/" + fullName + "/pullrequests"
  }

  /** The base URL, followed by `?` and the query string when the query string is not empty. */
  function RequestUrl(fullName: string, queryString: string): string {
    if queryString != [] then BaseUrl(fullName) + "?" + queryString else BaseUrl(fullName)
  }

  /** The URL requested for one whitelisted repository. */
  function RepoUrl(fullName: string, lastSync: Option<string>, onlyOpen: bool, dayStart: string -> string): string {
    RequestUrl(fullName, Serialize(QueryEntries(lastSync, onlyOpen, dayStart)))
  }

  /** Every repository request carries a query string. */
  lemma RepoUrlHasQuery(fullName: string, lastSync: Option<string>, onlyOpen: bool, dayStart: string -> string)
    ensures var qs := Serialize(QueryEntries(lastSync, onlyOpen, dayStart));
      qs != [] && RepoUrl(fullName, lastSync, onlyOpen, dayStart) == BaseUrl(fullName) + "?" + qs
  {
    QueryShapes(lastSync, onlyOpen, dayStart);
  }

  /** The Bitbucket endpoints the client calls, as seen with one set of credentials. */
  datatype BitbucketApi = BitbucketApi(
    user: nat -> FetchOutcome<UserBody>,
    pullRequests: string -> nat -> FetchOutcome<PageBody>)

  /**
   * What one whitelisted repository contributes: the normalised `values` of its page, and
   * nothing when the request fails or the page has no `values`.
   */
  function RepoContribution(api: BitbucketApi, userId: Option<string>, lastSync: Option<string>, onlyOpen: bool,
                            dayStart: string -> string, fullName: string): (prs: seq<PullRequest>)
    ensures var fetched := FetchWithRetry(api.pullRequests(RepoUrl(fullName, lastSync, onlyOpen, dayStart)));
      && (fetched.outcome.Threw? || fetched.outcome.value.body.values.None? ==> prs == [])
      && (fetched.outcome.Returned? && fetched.outcome.value.body.values.Some? ==>
            prs == MapPulls(fetched.outcome.value.body.values.value, userId))
  {
    match FetchWithRetry(api.pullRequests(RepoUrl(fullName, lastSync, onlyOpen, dayStart))).outcome
    case Threw(_) => []
    case Returned(resp) =>
      match resp.body.values
      case None => []
      case Some(pulls) => MapPulls(pulls, userId)
  }

  function ContributionOf(api: BitbucketApi, userId: Option<string>, lastSync: Option<string>, onlyOpen: bool,
                          dayStart: string -> string): string -> seq<PullRequest> {
    fullName => RepoContribution(api, userId, lastSync, onlyOpen, dayStart, fullName)
  }

  function ErrorPrefix(): string { "Bitbucket API Error: " }

  function ErrorSuffix(): string { ". Please check your credentials and try again." }

  /** The message of the error `fetchBitbucketPRs` throws when the user cannot be fetched. */
  function WrapError(e: Thrown): string {
    ErrorPrefix() + (if e.isError then e.message else "Failed to fetch Bitbucket PRs") + ErrorSuffix()
  }

  /** The wrapped message keeps the original one, which can be read back between the fixed prefix and suffix. */
  lemma WrapErrorKeepsMessage(e: Thrown)
    requires e.isError
    ensures var m := WrapError(e);
      |ErrorPrefix()| + |ErrorSuffix()| <= |m|
      && m[..|ErrorPrefix()|] == ErrorPrefix()
      && m[|ErrorPrefix()|..|m| - |ErrorSuffix()|] == e.message
  {
  }

  /**
   * What `fetchBitbucketPRs(username, appPassword, onlyOpen, lastSync)` resolves to, given the
   * stored whitelist: the normalised pull requests of every whitelisted repository, in
   * whitelist order, nothing when the whitelist is empty, or the wrapped error when the user
   * cannot be fetched.
   */
  function FetchResult(api: BitbucketApi, onlyOpen: bool, lastSync: Option<string>, dayStart: string -> string,
                       whitelist: seq<string>): Result<seq<PullRequest>, string> {
    match FetchWithRetry(api.user).outcome
    case Threw(e) => Err(WrapError(e))
    case Returned(resp) =>
      if whitelist == [] then Ok([])
      else Ok(Gather(whitelist, ContributionOf(api, resp.body.accountId, lastSync, onlyOpen, dayStart)))
  }

  /**
   * `fetchBitbucketPRs`: fetches the user with retries, stops at an empty whitelist, and
   * otherwise walks the whitelist in chunks of 3, pausing 200 ms between chunks.
   */
  method FetchBitbucketPRs(api: BitbucketApi, onlyOpen: bool, lastSync: Option<string>, dayStart: string -> string,
                           whitelist: seq<string>)
    returns (result: Result<seq<PullRequest>, string>, pauses: nat)
    ensures result == FetchResult(api, onlyOpen, lastSync, dayStart, whitelist)
    ensures whitelist == [] || result.Err? ==> pauses == 0
    ensures whitelist != [] && result.Ok? ==> pauses * CHUNK_SIZE < |whitelist| <= (pauses + 1) * CHUNK_SIZE
  {
    var user := FetchWithRetry(api.user);
    if user.outcome.Threw? {
      return Err(WrapError(user.outcome.error)), 0;
    }
    var userId := user.outcome.value.body.accountId;
    if whitelist == [] {
      return Ok([]), 0;
    }
    var all, chunks;
    all, chunks, pauses := ChunkedGather(whitelist, CHUNK_SIZE, ContributionOf(api, userId, lastSync, onlyOpen, dayStart));
    result := Ok(all);
  }

  /**
   * With an empty whitelist no pull-request endpoint is consulted: the result is the same
   * whatever those endpoints would answer.
   */
  lemma EmptyWhitelistRequestsNothing(user: nat -> FetchOutcome<UserBody>,
                                      pages1: string -> nat -> FetchOutcome<PageBody>,
                                      pages2: string -> nat -> FetchOutcome<PageBody>,
                                      onlyOpen: bool, lastSync: Option<string>, dayStart: string -> string)
    ensures FetchResult(BitbucketApi(user, pages1), onlyOpen, lastSync, dayStart, [])
         == FetchResult(BitbucketApi(user, pages2), onlyOpen, lastSync, dayStart, [])
    ensures FetchWithRetry(user).outcome.Returned? ==>
      FetchResult(BitbucketApi(user, pages1), onlyOpen, lastSync, dayStart, []) == Ok([])
  {
  }
}
