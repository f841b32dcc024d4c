# simple-prmonitor in Dafny

simple-prmonitor is a browser extension. It collects the pull requests of a GitHub account and of a set of whitelisted Bitbucket repositories into one list, which is kept in storage between runs. This project models the logic behind that list and proves properties of the model:

- **The reconciliation merge.** Freshly fetched pull requests replace stored ones with the same `source + id` key (module `Reconcile`).
- **The sync run.** It asks each configured provider for pull requests since a day before that provider's checkpoint. It stages a checkpoint only for a provider that answered. It merges and persists only when something arrived. It will not start while a run is in progress (module `Sync`, class `PrSync`).
- **The checkpoint-aware provider clients** (modules `GithubClient` and `BitbucketClient`):
  - their retry wrappers;
  - the chunked per-repository loop, with its pauses (module `Chunked`);
  - the Bitbucket query string (module `UrlSearch`, a model of `URLSearchParams`);
  - the field mappings;
  - the error wrapping.
- **The older clients that the sync hook actually imports** (module `LegacyApi`).
- **The editable collections:**
  - reviewer lists (`ReviewerLists`, `GhReviewers`);
  - reviewer-list members (`ReviewerMembers`);
  - the Bitbucket repository whitelist (`BitbucketWhitelist`);
  - the platform filter set (`PlatformFilter`).
- **The small pure mappings:**
  - the pull-request card (`PrCard`);
  - the list card (`PullRequestList`);
  - the header tab strip (`Header`).

Supporting modules:
- `Wrappers`: `Option`, `Result`.
- `Seqs`: filter, subsequence, distinctness.
- `Text`: JavaScript whitespace and `trim`, `split`/`join`, decimal rendering, `parseInt`.
- `Types`: the records of `src/types.ts`.
- `Failures`: a thrown value, with whether it is an `Error`, its HTTP status and its message.

Every network call is an input. A provider endpoint is a function from the attempt number to what that attempt resolved or rejected with. A sync run receives what each client call settled to and the time at which it did. Timestamps are integers, in milliseconds. `Promise.all` within a chunk is modelled as in-order concatenation. The delays are counted, not timed. Storage writes are fields holding the persisted value.

Where the description of the system and the code disagree, the model follows the code:
- `retryOperation` and `fetchWithRetry` make up to four attempts (one plus `MAX_RETRIES = 3`), not three.
- The merge does not remove duplicates inside the fetched list. Two fetched records with the same key both end up in the result (`Reconcile.FetchedDuplicatesKept`).

## Model

| member | source | states |
|---|---|---|
| Types.KeyInjective | src/utils.ts:6-7 | `source + id` identifies a record's source and id: two keys are equal iff both source and id are |
| Reconcile.UpdatePRArray | src/utils.ts:3-10 | the result ends with the fetched records in fetched order; what precedes them are exactly the stored records whose key was not fetched |
| Reconcile.MergeNothingFetched | src/utils.ts:6-9 | merging nothing returns the stored list unchanged, in order |
| Reconcile.MergeKeepsStoredOrder | src/utils.ts:7 | kept stored records keep their relative order |
| Reconcile.MergeLength | src/utils.ts:7-8 | the length is the number of kept stored records plus the number fetched |
| Reconcile.MergeIdempotent | src/utils.ts:6-8 | merging the same fetched list twice equals merging it once |
| Reconcile.MergeKeepsKeysDistinct | src/utils.ts:6-8 | distinct stored keys and distinct fetched keys give distinct result keys |
| Reconcile.MergeReplaces | src/utils.ts:6-8 | with distinct fetched keys, a fetched record is the only record in the result with its key |
| Reconcile.FetchedDuplicatesKept | src/utils.ts:8 | two fetched copies of one record are both pushed, so the result keys are not distinct |
| Reconcile.MergeScenario | src/utils.ts:3-10 | a stored open record refetched as merged is replaced, and a new record is appended after it |
| Chunked.ChunkedGather | src/services/github/api.ts:55-108 | the loop splits the items into consecutive chunks of the chunk size (all full but the last), gathers every item's contribution in item order, and pauses once between chunks and not after the last |
| Chunked.PushContributions | src/services/github/api.ts:101-102 | pushing a chunk's results appends their concatenation in chunk order |
| Chunked.GatherConcat | src/services/bitbucket/api.ts:148-149 | gathering a concatenation is the concatenation of the gathers |
| Chunked.GatherAt | src/services/github/api.ts:101-102 | an item's contribution sits in the result between those of the items before and after it |
| Chunked.GatherSkipsEmpty | src/services/github/api.ts:95-98 | an item contributing nothing leaves the rest of the result as if it were absent |
| Chunked.FlattenLength | src/services/github/api.ts:56-57 | with n chunks of the chunk size (the last possibly shorter), the item count lies between (n-1)·size and n·size |
| GithubClient.RetryFrom | src/services/github/api.ts:12-29 | the outcome is the attempt after `waits` failed ones; every waited-on attempt threw a retryable error; a final throw is not retryable or comes after all retries |
| GithubClient.RetryOperationBounds | src/services/github/api.ts:5-6 | at most three waits, so at most four attempts; a first success or a non-retryable first error returns at once with no wait |
| GithubClient.RetryRecoversFromServerErrors | src/services/github/api.ts:19-24 | two 5xx errors and then a success give that success after two waits |
| GithubClient.RetryDoesNotRetryNotFound | src/services/github/api.ts:19-27 | a 404 is rethrown with no wait |
| GithubClient.RetryGivesUpAfterThreeRetries | src/services/github/api.ts:23-27 | a 429 on every attempt is thrown after three waits |
| GithubClient.Since | src/services/github/api.ts:45 | `since` is present exactly when `lastSync` is a non-empty string, and then equals it |
| GithubClient.RepoParams | src/services/github/api.ts:42-46 | the repository query sorts by `updated`, asks for 100 per page and carries `since` only when `lastSync` is set |
| GithubClient.PullParams | src/services/github/api.ts:60-68 | owner and name come from the repository; the state is `open` iff only open ones are wanted, else `all`; `since` as for repositories |
| GithubClient.MapPull | src/services/github/api.ts:74-94 | id parses back to the upstream id; merged iff `merged`, else the upstream state; `imReviewer` iff the login is among the requested reviewers; `reviewed` iff that list is present and empty; `isOwner` iff the author is the login |
| GithubClient.MapPulls | src/services/github/api.ts:74 | one record per pull, in order |
| GithubClient.MapPullsDistinctKeys | src/services/github/api.ts:75 | pulls with distinct ids give records with distinct keys |
| GithubClient.RepoContribution | src/services/github/api.ts:95-98 | a repository whose pull listing throws after retries contributes nothing; one whose listing returns contributes exactly its mapped pulls |
| GithubClient.FailingRepoContributesNothing | src/services/github/api.ts:95-98 | the result with a failing repository equals the result without it, and the loop goes on |
| GithubClient.WrapErrorKeepsMessage | src/services/github/api.ts:111-115 | the rethrown message is `GitHub API Error: <message>. Please check your token and try again.` |
| GithubClient.FetchGithubPRs | src/services/github/api.ts:31-115 | the result is the user lookup, then the repository listing, then the chunked gather over repositories in chunks of 5; a failure of the first two gives the wrapped error with no pause |
| BitbucketClient.CheckOk | src/services/bitbucket/api.ts:17-21 | a response counts as a result iff it is OK; a non-OK response or a network failure is an error |
| BitbucketClient.FetchWithRetryFrom | src/services/bitbucket/api.ts:11-29 | the outcome is the check of the attempt after `waits` failed ones; every error is retried, whatever its status, until the retries run out |
| BitbucketClient.FetchRetriesEvenNotFound | src/services/bitbucket/api.ts:18-27 | a 404 on every attempt is thrown as `HTTP error! status: 404` after three waits |
| BitbucketClient.MapState | src/services/bitbucket/api.ts:126-130 | `MERGED` gives merged, `DECLINED` gives closed, anything else gives open |
| BitbucketClient.MapPull | src/services/bitbucket/api.ts:106-141 | `imReviewer` iff a reviewer has the user's account id; `reviewed` iff a participant with that id approved; `isOwner` iff the author has it; `commits` defaults to 0; with no account id all three flags are false |
| BitbucketClient.MapPulls | src/services/bitbucket/api.ts:106 | one record per pull, in order |
| BitbucketClient.BuildQuery | src/services/bitbucket/api.ts:71-89 | the `append`/`set` steps leave exactly the modelled query entries |
| BitbucketClient.QueryShapes | src/services/bitbucket/api.ts:73-89 | `q` is the `updated_on` clause, the `state` clause, both joined by ` AND `, or absent, by `lastSync` and `onlyOpen`; `pagelen=50` always comes last |
| BitbucketClient.RepoUrlHasQuery | src/services/bitbucket/api.ts:89-94 | the query string is never empty, so the URL is always `<base>?<query>` |
| BitbucketClient.RepoContribution | src/services/bitbucket/api.ts:97-103 | a repository whose request fails after retries, or whose body has no `values`, contributes nothing; otherwise exactly its mapped pulls |
| BitbucketClient.WrapErrorKeepsMessage | src/services/bitbucket/api.ts:159-163 | the rethrown message is `Bitbucket API Error: <message>. Please check your credentials and try again.` |
| BitbucketClient.FetchBitbucketPRs | src/services/bitbucket/api.ts:31-163 | the result is the chunked gather over the whitelist in chunks of 3; with an empty whitelist or an error there is no pause; otherwise the pauses number one less than the chunks |
| BitbucketClient.EmptyWhitelistRequestsNothing | src/services/bitbucket/api.ts:53-57 | with an empty whitelist the result does not depend on the pull-request endpoint, and is empty once the user lookup succeeds |
| UrlSearch.SearchParams.constructor | src/services/bitbucket/api.ts:71 | a new parameter list is empty |
| UrlSearch.SearchParams.Append | src/services/bitbucket/api.ts:77 | `append` adds one entry at the end |
| UrlSearch.SearchParams.Set | src/services/bitbucket/api.ts:82-85 | `set` leaves the name set once, to the value, with the other entries as before |
| UrlSearch.SearchParams.Get | src/services/bitbucket/api.ts:83 | `get` is the value of the first entry with that name |
| UrlSearch.FirstValue | src/services/bitbucket/api.ts:83 | none iff no entry has the name; otherwise the value of the first entry with it |
| UrlSearch.WithSetReadsBack | src/services/bitbucket/api.ts:82-85 | after `set`, `get` gives the value set |
| UrlSearch.WithSetSingle | src/services/bitbucket/api.ts:82-85 | after `set`, the name occurs once |
| UrlSearch.WithSetKeepsOthers | src/services/bitbucket/api.ts:82-85 | `set` leaves the entries with other names in order |
| UrlSearch.EncodeChar | src/services/bitbucket/api.ts:92 | an unreserved character is itself, a space is `+`, and any other character becomes `%XY` triples that percent-decode to its UTF-8 bytes (`UrlSearch.PercentRoundTrip`) |
| UrlSearch.PercentRoundTrip | src/services/bitbucket/api.ts:92 | percent-decoding the `%XY` form of any bytes gives those bytes back |
| UrlSearch.Encode | src/services/bitbucket/api.ts:92 | encoded text contains only unreserved characters, `+` and `%`, and is at least as long as the input |
| UrlSearch.SerializeEmptyIff | src/services/bitbucket/api.ts:92-94 | `toString()` is empty iff there are no entries |
| UrlSearch.SerializeParses | src/services/bitbucket/api.ts:92-94 | the query string splits on `&` into one `name=value` piece per entry, each splitting on `=` into the encoded name and value |
| LegacyApi.PullParams | src/services/api.ts:22-27 | owner and name come from the repository; the state is `open` iff `onlyOpen`, else `all`; 100 per page |
| LegacyApi.MapGithubPull | src/services/api.ts:29-48 | the same record as the checkpoint-aware mapping, with `imReviewer` false |
| LegacyApi.GithubResult | src/services/api.ts:4-62 | an error is always the fixed GitHub message, and happens iff the user lookup or the repository listing throws; otherwise the result is every listed repository's contribution, in listing order |
| LegacyApi.GithubContribution | src/services/api.ts:21-54 | a repository whose listing throws contributes nothing; one whose listing returns contributes one mapped record per pull, in order |
| LegacyApi.FailingRepoSkipped | src/services/api.ts:51-54 | the result with a repository whose listing throws equals the result without it, and the loop goes on |
| LegacyApi.ListedRepoInPlace | src/services/api.ts:20-50 | a returning repository's mapped pulls sit after those of the repositories listed before it and before those listed after it |
| LegacyApi.FetchGithubPRs | src/services/api.ts:17-57 | the sequential loop over repositories yields exactly `GithubResult` |
| LegacyApi.PullRequestsUrl | src/services/api.ts:82-85 | the URL is the endpoint plus the account id, with `?state=OPEN` appended iff `onlyOpen` |
| LegacyApi.UrlOfMissingAccount | src/services/api.ts:79-82 | a user body without `account_id` asks for `.../pullrequests/undefined` |
| LegacyApi.MapBitbucketState | src/services/api.ts:109 | `MERGED` gives merged and every other state open; never closed |
| LegacyApi.BitbucketStateGenerations | src/services/api.ts:109 | the two client generations agree on every state except `DECLINED`, which the older one shows as open |
| LegacyApi.MapBitbucketPull | src/services/api.ts:99-118 | `reviewed` iff the reviewers list is present and empty; `isOwner` iff the author's account id is the user's; `imReviewer` false |
| LegacyApi.BitbucketResult | src/services/api.ts:64-122 | an error is always the fixed Bitbucket message; the result is a success exactly when both responses are OK and the listing has `values`, and then record `i` is the mapping of pull `i` |
| Sync.Get24HoursBeforeSync | src/hooks/usePRs.ts:42-47 | no checkpoint gives no bound; otherwise exactly one day before the checkpoint |
| Sync.GithubStep | src/hooks/usePRs.ts:49-65 | without a token nothing happens; with one, GitHub is asked since a day before its checkpoint, and a checkpoint is staged iff it answered |
| Sync.BitbucketStep | src/hooks/usePRs.ts:67-84 | without both credentials nothing happens; with them, Bitbucket is asked after GitHub, and a checkpoint is staged iff it answered |
| Sync.Override | src/hooks/usePRs.ts:95 | each provider's new checkpoint is the staged one when there is one, else the old one |
| Sync.ProvidersAskedWhenConfigured | src/hooks/usePRs.ts:49-67 | GitHub is asked iff a token is set, Bitbucket iff username and app password are set, and nothing else |
| Sync.GithubFailureDoesNotBlockBitbucket | src/hooks/usePRs.ts:60-69 | after a GitHub failure Bitbucket is still asked, with its own checkpoint less a day |
| Sync.StagedOnlyOnSuccess | src/hooks/usePRs.ts:49-84 | a checkpoint is staged iff the provider was asked and answered, and it is the time of that answer |
| Sync.OneErrorLinePerFailure | src/hooks/usePRs.ts:60-83 | each failed provider adds exactly one `<Provider>: <message>` line, GitHub's first |
| Sync.FetchedIsBothAnswers | src/hooks/usePRs.ts:57-76 | the fetched records are GitHub's answer followed by Bitbucket's |
| Sync.UnstagedCheckpointKept | src/hooks/usePRs.ts:95-99 | a provider with nothing staged keeps its checkpoint |
| Sync.NothingFetchedChangesNothing | src/hooks/usePRs.ts:90-107 | with nothing fetched, neither the records nor any checkpoint change |
| Sync.PartialFailureKeepsOtherProvider | src/hooks/usePRs.ts:49-107 | GitHub failing and Bitbucket answering merges Bitbucket's records, advances only its checkpoint and reports GitHub |
| Sync.Settled | src/hooks/usePRs.ts:60-61 | a client's rejection reaches the run as an `Error` carrying the client's message |
| Sync.GithubClientFailureLine | src/hooks/usePRs.ts:52-64 | with the imported client, any GitHub failure gives the fixed line `GitHub: Failed to fetch GitHub PRs...` and stages nothing |
| Sync.PrSync.constructor | src/hooks/usePRs.ts:8-16 | the state starts from the stored records and checkpoints, or empty |
| Sync.PrSync.BeginFetch | src/hooks/usePRs.ts:24-25 | raises `refreshing` and clears the error |
| Sync.AskProviders | src/hooks/usePRs.ts:37-84 | the calls made, records fetched, checkpoints staged and error lines collected are exactly those of the run `SyncRun` specifies |
| Sync.PrSync.CompleteFetch | src/hooks/usePRs.ts:28-115 | records, checkpoints and errors become those of the run; the stored copies are written iff something was fetched; `refreshing` ends false |
| Sync.PrSync.FetchPRs | src/hooks/usePRs.ts:22-116 | a whole run leaves the merged records, overridden checkpoints, the joined errors (or none), the stored copies written iff something was fetched, and `refreshing` false |
| Sync.PrSync.Refresh | src/hooks/usePRs.ts:118-122 | while `refreshing`, nothing changes and nothing is asked; otherwise the whole run happens: records, checkpoints, error and stored copies as for `FetchPRs`, ending with `refreshing` false |
| ReviewerLists.Removed | src/hooks/useReviewerLists.ts:23-25 | exactly the lists with another id remain, every one of them, in order |
| ReviewerLists.RemoveAbsentIsNoOp | src/hooks/useReviewerLists.ts:24 | removing an absent id changes nothing |
| ReviewerLists.Updated | src/hooks/useReviewerLists.ts:27-31 | each list with the id is replaced; length, ids and every other list are unchanged; an absent id changes nothing |
| ReviewerLists.AddKeepsIdsDistinct | src/hooks/useReviewerLists.ts:14-21 | adding with a fresh id keeps ids distinct |
| ReviewerLists.RemoveKeepsIdsDistinct | src/hooks/useReviewerLists.ts:23-25 | removing keeps ids distinct |
| ReviewerLists.UpdateKeepsIdsDistinct | src/hooks/useReviewerLists.ts:27-31 | replacing keeps ids distinct |
| ReviewerLists.RemoveIsFinal | src/hooks/useReviewerLists.ts:23-25 | after removal the id is gone, so removing again changes nothing |
| ReviewerLists.ReviewerListStore.constructor | src/hooks/useReviewerLists.ts:5-8 | the lists start as the stored ones, or empty |
| ReviewerLists.ReviewerListStore.AddList | src/hooks/useReviewerLists.ts:14-21 | appends one list with the name, the fresh id and no users |
| ReviewerLists.ReviewerListStore.RemoveList | src/hooks/useReviewerLists.ts:23-25 | the lists become those without the id |
| ReviewerLists.ReviewerListStore.UpdateList | src/hooks/useReviewerLists.ts:27-31 | the lists become those with the id replaced |
| GhReviewers.CreateKeepsNamesDistinct | src/components/reviewers/GHReviewers.tsx:17-25 | an accepted name keeps list names distinct |
| GhReviewers.TrailingSpaceIsANewName | src/components/reviewers/GHReviewers.tsx:19 | the duplicate test is exact, so `a ` is accepted beside `a` |
| GhReviewers.GhReviewersForm.HandleCreateList | src/components/reviewers/GHReviewers.tsx:15-27 | a list is created iff the name is not blank and not taken; then it is appended and the input cleared, otherwise nothing changes |
| ReviewerMembers.WithUser | src/components/reviewers/ReviewersList.tsx:26-29 | id and name are kept, and the user is appended after the existing members |
| ReviewerMembers.WithoutUser | src/components/reviewers/ReviewersList.tsx:42-47 | id and name are kept; exactly the members with another login remain, every one of them, in order |
| ReviewerMembers.AddKeepsLoginsDistinct | src/components/reviewers/ReviewersList.tsx:25-29 | adding an absent login keeps logins distinct |
| ReviewerMembers.RemoveKeepsLoginsDistinct | src/components/reviewers/ReviewersList.tsx:43-45 | removing keeps logins distinct |
| ReviewerMembers.RemoveUndoesAdd | src/components/reviewers/ReviewersList.tsx:26-45 | removing a just-added login gives the list back |
| ReviewerMembers.ReviewersListCard.HandleAddUser | src/components/reviewers/ReviewersList.tsx:18-40 | blank input does nothing; a failed lookup keeps the input and updates nothing; a found user is appended iff its login is absent, and the input is cleared; loading ends false |
| BitbucketWhitelist.VerifyUrl | src/components/BitbucketWhitelist.tsx:32-34 | the lookup URL is the repositories endpoint followed by the full name |
| BitbucketWhitelist.FullNameSplits | src/components/BitbucketWhitelist.tsx:24 | a name built from inputs without `/` splits back into workspace and repository |
| BitbucketWhitelist.WithoutRepo | src/components/BitbucketWhitelist.tsx:60 | every occurrence of the name goes; every other entry stays, in order |
| BitbucketWhitelist.AddKeepsNoDuplicates | src/components/BitbucketWhitelist.tsx:27-47 | appending an unlisted name keeps the whitelist duplicate-free |
| BitbucketWhitelist.RemoveKeepsNoDuplicates | src/components/BitbucketWhitelist.tsx:60 | removing keeps it duplicate-free |
| BitbucketWhitelist.RemoveUndoesAdd | src/components/BitbucketWhitelist.tsx:47-60 | removing a just-added name gives the whitelist back |
| BitbucketWhitelist.WhitelistForm.constructor | src/components/BitbucketWhitelist.tsx:13-18 | the whitelist starts as the stored one, or empty, with empty inputs |
| BitbucketWhitelist.WhitelistForm.HandleAddRepo | src/components/BitbucketWhitelist.tsx:20-57 | blank inputs, an already listed name and a failed lookup each leave everything unchanged; otherwise the untrimmed `workspace/repo` is appended, stored and both inputs cleared |
| BitbucketWhitelist.WhitelistForm.HandleRemoveRepo | src/components/BitbucketWhitelist.tsx:59-64 | the whitelist loses the name and is stored; inputs are kept |
| PlatformFilter.Toggled | src/components/PlatformFilter.tsx:10-18 | a present platform is removed, an absent one added, every other membership unchanged |
| PlatformFilter.ToggleTwice | src/components/PlatformFilter.tsx:12-16 | toggling twice restores the selection |
| PlatformFilter.ToggleCommutes | src/components/PlatformFilter.tsx:10-18 | toggling two platforms commutes |
| PlatformFilter.PlatformSelection.TogglePlatform | src/components/PlatformFilter.tsx:10-18 | the selection becomes the toggled copy |
| PrCard.StatusColorsDiffer | src/components/PRCard.tsx:12-16 | the colour table is total and gives each status its own colour |
| PrCard.OwnerAndRepoMeaning | src/components/PRCard.tsx:20 | owner is the text before the first `/`; repo is absent iff there is no `/`, else the text up to the next `/` |
| PrCard.OwnerAndRepoOfFullName | src/components/PRCard.tsx:20 | `owner/repo` gives back both halves |
| PrCard.PrNumberWithoutPullSegment | src/components/PRCard.tsx:22 | a URL without `/pull/` gives NaN |
| PrCard.PrNumberOfPullUrl | src/components/PRCard.tsx:22 | `<prefix>/pull/<n>` gives n |
| PrCard.BitbucketCardsHaveNoPopover | src/components/PRCard.tsx:68 | the popover that uses the number is never shown for Bitbucket |
| PullRequestList.StatusColorCases | src/components/PullRequestList.tsx:96-107 | gray iff the status is none of pass, fail, waiting; those three get distinct colours |
| PullRequestList.FilteredPRs | src/components/PullRequestList.tsx:109-111 | `all` keeps the list; any other value keeps exactly the records on that platform, in order |
| PullRequestList.FilterByPlatform | src/components/PullRequestList.tsx:111 | the filter keeps as many records as are on the platform and is idempotent |
| PullRequestList.TokenSettings.constructor | src/components/PullRequestList.tsx:77-80 | tokens start with empty GitHub and Bitbucket entries |
| PullRequestList.TokenSettings.HandleTokenUpdate | src/components/PullRequestList.tsx:83-88 | only the named key changes, to the value |
| Header.RenderedTabsOfTable | src/components/Header.tsx:37-42 | reviews and own pull requests always render; the reviewer tab iff a GitHub token, the whitelist tab iff Bitbucket credentials, in table order |
| Header.FindIndex | src/components/Header.tsx:108 | -1 iff no tab has the id; otherwise the first position with it |
| Header.AsWrittenPicksWrongTab | src/components/Header.tsx:108-110 | with only Bitbucket credentials, clicking the whitelist tab selects the reviewers tab, and the whitelist is asked for at index 3 of 3 tabs |
| Header.AsWrittenAgreesWithGithubToken | src/components/Header.tsx:108 | with a GitHub token the two numberings agree |
| Header.CorrectedRoundTrip | src/components/Header.tsx:108-110 | indexing through the rendered tabs round-trips: clicking a tab selects it, and a selected tab is the one at its index |
| Header.ListControlsOnPullRequestTabs | src/components/Header.tsx:69-86 | the list controls show only on the two pull-request tabs, and refresh needs no run in progress |

## Left out

- HTTP, the Octokit and `fetch` calls, `btoa` and `response.json()` are inputs. A body that fails to parse is not modelled. Neither is the concurrent scheduling of `Promise.all`.
- `delay` and `setTimeout`: pauses are counted, not timed.
- Storage (`localStorage`, `chrome.storage`), JSON round-trips, toasts and console output. Persisted values are fields of the classes.
- The outer `catch` of `fetchPRs` (src/hooks/usePRs.ts:109-112) only sees failures of storage and credential reading, which are not modelled. The credentials are an input.
- Dates. `new Date().toISOString()` is the time a provider answered, passed in as an integer. The Bitbucket start-of-day (src/services/bitbucket/api.ts:75-77) is a function parameter.
- Sync.Get24HoursBeforeSync: subtracts exactly 24 hours. The local-time `setHours` in the source can differ by an hour across a daylight-saving change.
- The hook imports the older clients of src/services/api.ts. They take no checkpoint, so the `lastSync` argument the hook passes is dropped. `Sync` therefore takes the settled outcome of whichever client is used as input; `Sync.GithubClientFailureLine` connects it to the older GitHub client.
- LegacyApi.MapGithubPull and LegacyApi.MapBitbucketPull: the older clients set no `imReviewer`. The model uses false, which is what the source's falsy `undefined` amounts to.
- `crypto.randomUUID` is a `freshId` parameter. Fresh ids are distinct from existing ones only where a lemma requires it.
- UrlSearch.Encode: follows the urlencoded serializer for Unicode scalar values: letters, digits and `*-._` stay, a space becomes `+`, and anything else becomes percent-encoded UTF-8. Its contract states only that the output uses those characters; how each character is encoded is stated on `UrlSearch.EncodeChar`. The replacement of unpaired surrogates is not modelled.
- The mapped records' display-only fields (title, author, branch, dates, comment counts) are copied, and no contract speaks of them.
- ReviewerMembers.ReviewersListCard.RemoveUser has no contract of its own. It is `WithoutUser` of the card's list, whose contract states it.
- src/background.ts, the settings modal, the add-reviewers popover, the mock providers and the rendering components are not part of this model.

## Findings

| source | as written | input that shows it | evidently intended | confidence | as-written member | corrected member |
|---|---|---|---|---|---|---|
| src/components/Header.tsx:108 | `selectedIndex` and `onChange` index the whole `tabs` table, while the strip renders only the enabled tabs | no GitHub token and Bitbucket credentials set: the strip shows To Review, My PRs, BB Whitelist; clicking the third selects `gh-reviewers`, and selecting `bb-whitelist` asks for index 3 | translate indices through the rendered (filtered) tabs | not executed | Header.AsWrittenPicksWrongTab | Header.CorrectedRoundTrip |
