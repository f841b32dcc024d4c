/**
 * The pull-request sync hook (src/hooks/usePRs.ts): its state (the stored pull requests, the
 * per-provider checkpoints, the error text and the `refreshing` flag) and one sync run, which
 * asks each configured provider for its pull requests since a day before that provider's
 * checkpoint, stages a new checkpoint for each provider that answered, and merges and
 * persists only when at least one pull request arrived.
 *
 * The provider calls are inputs: what each call resolved to, and the time at which it did.
 * Timestamps are milliseconds since the epoch.
 */
module Sync {
  import opened Wrappers
  import opened Text
  import opened Types
  import opened Failures
  import opened Reconcile
  import LegacyApi

  /** 24 hours, in milliseconds. */
  const DAY_MS: int := 24 * 60 * 60 * 1000

  /** `get24HoursBeforeSync`: no checkpoint means no lower bound; otherwise one day earlier. */
  function Get24HoursBeforeSync(lastSync: Option<int>): (since: Option<int>)
    ensures since.None? <==> lastSync.None?
    ensures since.Some? ==> since.value + DAY_MS == lastSync.value
  {
    match lastSync
    case None => None
    case Some(t) => Some(t - DAY_MS)
  }

  /** A provider request the run makes, with the lower bound it passes. */
  datatype FetchCall = FetchCall(source: Source, since: Option<int>)

  /**
   * What a run gathers before touching the state: the requests made, the pull requests
   * fetched (GitHub's first), the checkpoints staged and the error lines.
   */
  datatype Run = Run(calls: seq<FetchCall>, fetched: seq<PullRequest>, staged: SyncDates, errors: seq<string>)

  /** The text after `"<Provider>: "` in an error line. */
  function ErrorText(e: Thrown): string {
    if e.isError then e.message else "Unknown error"
  }

  /** The GitHub step of a run, from an empty run. */
  function GithubStep(creds: Credentials, dates: SyncDates, gh: Attempt<seq<PullRequest>>, ghNow: int): (run: Run)
    ensures !HasGithubToken(creds) ==> run == Run([], [], SyncDates(None, None), [])
    ensures HasGithubToken(creds) ==> run.calls == [FetchCall(Github, Get24HoursBeforeSync(dates.github))]
    ensures run.staged.bitbucket.None?
    ensures run.staged.github.Some? <==> HasGithubToken(creds) && gh.Returned?
  {
    if !HasGithubToken(creds) then Run([], [], SyncDates(None, None), [])
    else
      var calls := [FetchCall(Github, Get24HoursBeforeSync(dates.github))];
      match gh
      case Returned(prs) => Run(calls, prs, SyncDates(Some(ghNow), None), [])
      case Threw(e) => Run(calls, [], SyncDates(None, None), ["GitHub: " + ErrorText(e)])
  }

  /** The Bitbucket step of a run, continuing `run`. */
  function BitbucketStep(run: Run, creds: Credentials, dates: SyncDates, bb: Attempt<seq<PullRequest>>, bbNow: int): (next: Run)
    ensures !HasBitbucketCredentials(creds) ==> next == run
    ensures HasBitbucketCredentials(creds) ==> next.calls == run.calls + [FetchCall(Bitbucket, Get24HoursBeforeSync(dates.bitbucket))]
    ensures next.staged.github == run.staged.github
    ensures next.staged.bitbucket.Some? <==> run.staged.bitbucket.Some? || (HasBitbucketCredentials(creds) && bb.Returned?)
  {
    if !HasBitbucketCredentials(creds) then run
    else
      var calls := run.calls + [FetchCall(Bitbucket, Get24HoursBeforeSync(dates.bitbucket))];
      match bb
      case Returned(prs) => Run(calls, run.fetched + prs, run.staged.(bitbucket := Some(bbNow)), run.errors)
      case Threw(e) => Run(calls, run.fetched, run.staged, run.errors + ["Bitbucket: " + ErrorText(e)])
  }

  /** The whole gathering part of `fetchPRs`. */
  function SyncRun(creds: Credentials, dates: SyncDates, gh: Attempt<seq<PullRequest>>, bb: Attempt<seq<PullRequest>>,
                   ghNow: int, bbNow: int): Run {
    BitbucketStep(GithubStep(creds, dates, gh, ghNow), creds, dates, bb, bbNow)
  }

  /** `{...prev, ...staged}`: the staged checkpoints win, the others are kept. */
  function Override(prev: SyncDates, staged: SyncDates): (r: SyncDates)
    ensures r.github == if staged.github.Some? then staged.github else prev.github
    ensures r.bitbucket == if staged.bitbucket.Some? then staged.bitbucket else prev.bitbucket
  {
    SyncDates(if staged.github.Some? then staged.github else prev.github,
              if staged.bitbucket.Some? then staged.bitbucket else prev.bitbucket)
  }

  /** The stored pull requests after a run: merged only when something arrived. */
  function NextPrs(prs: seq<PullRequest>, run: Run): seq<PullRequest> {
    if |run.fetched| > 0 then UpdatePRArray(prs, run.fetched) else prs
  }

  /** The checkpoints after a run: advanced only when something arrived. */
  function NextSyncDates(dates: SyncDates, run: Run): SyncDates {
    if |run.fetched| > 0 then Override(dates, run.staged) else dates
  }

  /** The error text after a run: the error lines joined by newlines, or none. */
  function NextError(run: Run): Option<string> {
    if run.errors == [] then None else Some(Join(run.errors, "\n"))
  }

  /** GitHub is asked exactly when a token is set, and Bitbucket exactly when both its credentials are. */
  lemma ProvidersAskedWhenConfigured(creds: Credentials, dates: SyncDates, gh: Attempt<seq<PullRequest>>,
                                     bb: Attempt<seq<PullRequest>>, ghNow: int, bbNow: int)
    ensures var run := SyncRun(creds, dates, gh, bb, ghNow, bbNow);
      && ((exists k :: 0 <= k < |run.calls| && run.calls[k].source == Github) <==> HasGithubToken(creds))
      && ((exists k :: 0 <= k < |run.calls| && run.calls[k].source == Bitbucket) <==> HasBitbucketCredentials(creds))
      && |run.calls| <= 2
  {
    var run := SyncRun(creds, dates, gh, bb, ghNow, bbNow);
    var first := GithubStep(creds, dates, gh, ghNow);
    if HasGithubToken(creds) {
      assert run.calls[0].source == Github;
    }
    if HasBitbucketCredentials(creds) {
      assert run.calls[|run.calls| - 1].source == Bitbucket;
    }
  }

  /**
   * A GitHub failure does not keep Bitbucket from being asked, and the Bitbucket request
   * carries its own checkpoint moved back a day.
   */
  lemma GithubFailureDoesNotBlockBitbucket(creds: Credentials, dates: SyncDates, e: Thrown,
                                           bb: Attempt<seq<PullRequest>>, ghNow: int, bbNow: int)
    requires HasBitbucketCredentials(creds)
    ensures var run := SyncRun(creds, dates, Threw(e), bb, ghNow, bbNow);
      run.calls[|run.calls| - 1] == FetchCall(Bitbucket, Get24HoursBeforeSync(dates.bitbucket))
  {
  }

  /**
   * A checkpoint is staged for a provider exactly when it was asked and answered, and it is
   * the time of that answer.
   */
  lemma StagedOnlyOnSuccess(creds: Credentials, dates: SyncDates, gh: Attempt<seq<PullRequest>>,
                            bb: Attempt<seq<PullRequest>>, ghNow: int, bbNow: int)
    ensures var run := SyncRun(creds, dates, gh, bb, ghNow, bbNow);
      && (run.staged.github.Some? <==> HasGithubToken(creds) && gh.Returned?)
      && (run.staged.bitbucket.Some? <==> HasBitbucketCredentials(creds) && bb.Returned?)
      && (run.staged.github.Some? ==> run.staged.github.value == ghNow)
      && (run.staged.bitbucket.Some? ==> run.staged.bitbucket.value == bbNow)
  {
  }

  /** Each asked provider that failed adds exactly one error line, naming the provider; nothing else adds any. */
  lemma OneErrorLinePerFailure(creds: Credentials, dates: SyncDates, gh: Attempt<seq<PullRequest>>,
                               bb: Attempt<seq<PullRequest>>, ghNow: int, bbNow: int)
    ensures var run := SyncRun(creds, dates, gh, bb, ghNow, bbNow);
      var ghFailed := HasGithubToken(creds) && gh.Threw?;
      var bbFailed := HasBitbucketCredentials(creds) && bb.Threw?;
      && |run.errors| == (if ghFailed then 1 else 0) + (if bbFailed then 1 else 0)
      && (ghFailed ==> run.errors[0] == "GitHub: " + ErrorText(gh.error))
      && (bbFailed ==> run.errors[|run.errors| - 1] == "Bitbucket: " + ErrorText(bb.error))
  {
  }

  /** The fetched pull requests are GitHub's answer followed by Bitbucket's, each only when it arrived. */
  lemma FetchedIsBothAnswers(creds: Credentials, dates: SyncDates, gh: Attempt<seq<PullRequest>>,
                             bb: Attempt<seq<PullRequest>>, ghNow: int, bbNow: int)
    ensures SyncRun(creds, dates, gh, bb, ghNow, bbNow).fetched
      == (if HasGithubToken(creds) && gh.Returned? then gh.value else [])
       + (if HasBitbucketCredentials(creds) && bb.Returned? then bb.value else [])
  {
    var first := GithubStep(creds, dates, gh, ghNow);
    if !(HasGithubToken(creds) && gh.Returned?) {
      assert first.fetched == [];
    }
  }

  /** A provider without a staged checkpoint keeps its old one. */
  lemma UnstagedCheckpointKept(dates: SyncDates, run: Run)
    ensures run.staged.github.None? ==> NextSyncDates(dates, run).github == dates.github
    ensures run.staged.bitbucket.None? ==> NextSyncDates(dates, run).bitbucket == dates.bitbucket
  {
  }

  /** With nothing fetched, neither the pull requests nor any checkpoint change, even for providers that answered. */
  lemma NothingFetchedChangesNothing(prs: seq<PullRequest>, dates: SyncDates, run: Run)
    requires run.fetched == []
    ensures NextPrs(prs, run) == prs && NextSyncDates(dates, run) == dates
  {
  }

  /**
   * Partial failure: GitHub throws and Bitbucket answers with at least one pull request. The
   * Bitbucket pull requests are merged in, only the Bitbucket checkpoint advances, and the
   * error names GitHub.
   */
  lemma PartialFailureKeepsOtherProvider(creds: Credentials, prs: seq<PullRequest>, dates: SyncDates, e: Thrown,
                                         bbPrs: seq<PullRequest>, ghNow: int, bbNow: int)
    requires HasGithubToken(creds) && HasBitbucketCredentials(creds)
    requires bbPrs != []
    ensures var run := SyncRun(creds, dates, Threw(e), Returned(bbPrs), ghNow, bbNow);
      && NextPrs(prs, run) == UpdatePRArray(prs, bbPrs)
      && NextSyncDates(dates, run) == SyncDates(dates.github, Some(bbNow))
      && NextError(run) == Some("GitHub: " + ErrorText(e))
  {
    var run := SyncRun(creds, dates, Threw(e), Returned(bbPrs), ghNow, bbNow);
    assert run.fetched == [] + bbPrs;
    assert [] + bbPrs == bbPrs;
  }

  /** How a client's promise settles, as the run sees it: a rejection carries an `Error` with the client's message. */
  function Settled(r: Result<seq<PullRequest>, string>): (a: Attempt<seq<PullRequest>>)
    ensures a.Returned? <==> r.Ok?
    ensures r.Ok? ==> a.value == r.value
    ensures r.Err? ==> a.error.isError && a.error.message == r.error
  {
    match r
    case Ok(prs) => Returned(prs)
    case Err(m) => Threw(Thrown(true, None, m))
  }

  /**
   * With the clients the hook imports, a GitHub failure of any kind reaches the error text as
   * the same fixed line, and its checkpoint is not staged.
   */
  lemma GithubClientFailureLine(creds: Credentials, dates: SyncDates, api: LegacyApi.GithubApi,
                                bb: Attempt<seq<PullRequest>>, ghNow: int, bbNow: int)
    requires HasGithubToken(creds)
    requires api.getAuthenticated.Threw? || api.listForAuthenticatedUser.Threw?
    ensures var run := SyncRun(creds, dates, Settled(LegacyApi.GithubResult(api, true)), bb, ghNow, bbNow);
      && run.errors[0] == "GitHub: " + LegacyApi.GITHUB_FAILURE
      && run.staged.github.None?
  {
    var settled := Settled(LegacyApi.GithubResult(api, true));
    assert ErrorText(settled.error) == LegacyApi.GITHUB_FAILURE;
    var run := SyncRun(creds, dates, settled, bb, ghNow, bbNow);
    assert run.errors[0] == "GitHub: " + LegacyApi.GITHUB_FAILURE;
  }

  /**
   * The provider part of `fetchPRs`: GitHub and then Bitbucket are asked when configured,
   * each answer is pushed onto the fetched records and stages that provider's checkpoint,
   * and each failure pushes one error line.
   */
  method AskProviders(creds: Credentials, dates: SyncDates, gh: Attempt<seq<PullRequest>>, bb: Attempt<seq<PullRequest>>,
                      ghNow: int, bbNow: int)
    returns (run: Run)
    ensures run == SyncRun(creds, dates, gh, bb, ghNow, bbNow)
  {
    var allPRs: seq<PullRequest> := [];
    var errors: seq<string> := [];
    var newSyncDates := SyncDates(None, None);
    var calls: seq<FetchCall> := [];
    if HasGithubToken(creds) {
      calls := calls + [FetchCall(Github, Get24HoursBeforeSync(dates.github))];
      match gh {
        case Returned(githubPRs) =>
          allPRs := allPRs + githubPRs;
          newSyncDates := newSyncDates.(github := Some(ghNow));
        case Threw(e) =>
          errors := errors + ["GitHub: " + ErrorText(e)];
      }
    }
    assert GithubStep(creds, dates, gh, ghNow) == Run(calls, allPRs, newSyncDates, errors);
    if HasBitbucketCredentials(creds) {
      calls := calls + [FetchCall(Bitbucket, Get24HoursBeforeSync(dates.bitbucket))];
      match bb {
        case Returned(bitbucketPRs) =>
          allPRs := allPRs + bitbucketPRs;
          newSyncDates := newSyncDates.(bitbucket := Some(bbNow));
        case Threw(e) =>
          errors := errors + ["Bitbucket: " + ErrorText(e)];
      }
    }
    run := Run(calls, allPRs, newSyncDates, errors);
  }

  /** The state of `usePRs` that a sync run reads and writes, with the copies it persists. */
  class PrSync {
    var prs: seq<PullRequest>
    var lastSyncDates: SyncDates
    var error: Option<string>
    var refreshing: bool
    /** `pr-viewer-prs` in storage. */
    var storedPrs: Option<seq<PullRequest>>
    /** `pr-viewer-last-sync` in storage. */
    var storedSyncDates: Option<SyncDates>

    /** The hook's initial state: what storage holds, or nothing. */
    constructor(storedPrs: Option<seq<PullRequest>>, storedSyncDates: Option<SyncDates>)
      ensures prs == storedPrs.GetOr([]) && lastSyncDates == storedSyncDates.GetOr(SyncDates(None, None))
      ensures error == None && !refreshing
      ensures this.storedPrs == storedPrs && this.storedSyncDates == storedSyncDates
    {
      prs := storedPrs.GetOr([]);
      lastSyncDates := storedSyncDates.GetOr(SyncDates(None, None));
      error := None;
      refreshing := false;
      this.storedPrs := storedPrs;
      this.storedSyncDates := storedSyncDates;
    }

    /** The start of `fetchPRs`: raise `refreshing` and clear the error. */
    method BeginFetch()
      modifies this
      ensures refreshing && error == None
      ensures prs == old(prs) && lastSyncDates == old(lastSyncDates)
      ensures storedPrs == old(storedPrs) && storedSyncDates == old(storedSyncDates)
    {
      refreshing := true;
      error := None;
    }

    /**
     * The rest of `fetchPRs`: ask the configured providers, record the errors, merge and
     * persist when something arrived, and lower `refreshing`. `calls` are the requests made.
     */
    method CompleteFetch(creds: Credentials, gh: Attempt<seq<PullRequest>>, bb: Attempt<seq<PullRequest>>,
                         ghNow: int, bbNow: int)
      returns (calls: seq<FetchCall>)
      modifies this
      ensures var run := SyncRun(creds, old(lastSyncDates), gh, bb, ghNow, bbNow);
        && calls == run.calls
        && prs == NextPrs(old(prs), run)
        && lastSyncDates == NextSyncDates(old(lastSyncDates), run)
        && error == (if run.errors == [] then old(error) else NextError(run))
        && (if |run.fetched| > 0 then storedPrs == Some(prs) && storedSyncDates == Some(lastSyncDates)
            else storedPrs == old(storedPrs) && storedSyncDates == old(storedSyncDates))
        && !refreshing
    {
      var run := AskProviders(creds, lastSyncDates, gh, bb, ghNow, bbNow);
      calls := run.calls;
      if |run.errors| > 0 {
        error := Some(Join(run.errors, "\n"));
      }
      if |run.fetched| > 0 {
        var currentPrs := UpdatePRArray(prs, run.fetched);
        prs := currentPrs;
        lastSyncDates := Override(lastSyncDates, run.staged);
        storedPrs := Some(currentPrs);
        storedSyncDates := Some(lastSyncDates);
      }
      refreshing := false;
    }

    /** `fetchPRs`: a whole run, from raising `refreshing` to lowering it again. */
    method FetchPRs(creds: Credentials, gh: Attempt<seq<PullRequest>>, bb: Attempt<seq<PullRequest>>,
                    ghNow: int, bbNow: int)
      returns (calls: seq<FetchCall>)
      modifies this
      ensures var run := SyncRun(creds, old(lastSyncDates), gh, bb, ghNow, bbNow);
        && calls == run.calls
        && prs == NextPrs(old(prs), run)
        && lastSyncDates == NextSyncDates(old(lastSyncDates), run)
        && error == NextError(run)
        && (if |run.fetched| > 0 then storedPrs == Some(prs) && storedSyncDates == Some(lastSyncDates)
            else storedPrs == old(storedPrs) && storedSyncDates == old(storedSyncDates))
        && !refreshing
    {
      BeginFetch();
      calls := CompleteFetch(creds, gh, bb, ghNow, bbNow);
    }

    /** `refresh`: runs `fetchPRs` unless a run is in progress, in which case nothing happens. */
    method Refresh(creds: Credentials, gh: Attempt<seq<PullRequest>>, bb: Attempt<seq<PullRequest>>,
                   ghNow: int, bbNow: int)
      returns (calls: seq<FetchCall>)
      modifies this
      ensures old(refreshing) ==> calls == [] && unchanged(this)
      ensures !old(refreshing) ==> var run := SyncRun(creds, old(lastSyncDates), gh, bb, ghNow, bbNow);
        && calls == run.calls
        && prs == NextPrs(old(prs), run)
        && lastSyncDates == NextSyncDates(old(lastSyncDates), run)
        && error == NextError(run)
        && (if |run.fetched| > 0 then storedPrs == Some(prs) && storedSyncDates == Some(lastSyncDates)
            else storedPrs == old(storedPrs) && storedSyncDates == old(storedSyncDates))
        && !refreshing
    {
      calls := [];
      if !refreshing {
        calls := FetchPRs(creds, gh, bb, ghNow, bbNow);
      }
    }
  }
}
