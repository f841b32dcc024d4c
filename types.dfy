/**
 * The records the extension stores and passes around (src/types.ts): the normalised pull
 * request, the per-provider sync checkpoints, the stored credentials and the reviewer lists.
 */
module Types {
  import opened Wrappers

  datatype Source = Github | Bitbucket

  datatype Status = Open | Merged | Closed

  datatype Author = Author(name: string, avatar: string)

  /** A pull request normalised from either provider. */
  datatype PullRequest = PullRequest(
    id: string,
    title: string,
    description: string,
    author: Author,
    repository: string,
    branch: string,
    status: Status,
    comments: nat,
    commits: nat,
    created: string,
    updated: string,
    source: Source,
    url: string,
    imReviewer: bool,
    reviewed: bool,
    isOwner: bool)

  /** The string value of the `source` field. */
  function SourceName(s: Source): string {
    match s
    case Github => "github"
    case Bitbucket => "bitbucket"
  }

  /** The reconciliation key `pr.source + pr.id`. */
  function Key(pr: PullRequest): string {
    SourceName(pr.source) + pr.id
  }

  /**
   * Gluing the source name to the id loses nothing: neither source name is a prefix of the
   * other (they already differ in their first letter), so equal keys mean equal (source, id).
   */
  lemma KeyInjective(a: PullRequest, b: PullRequest)
    ensures Key(a) == Key(b) <==> a.source == b.source && a.id == b.id
  {
    if Key(a) == Key(b) {
      assert Key(a)[0] == SourceName(a.source)[0];
      assert Key(b)[0] == SourceName(b.source)[0];
      var n := |SourceName(a.source)|;
      assert a.id == Key(a)[n..];
      assert b.id == Key(b)[n..];
    }
  }

  /** Per-provider checkpoints, in milliseconds since the epoch; `None` is an absent key. */
  datatype SyncDates = SyncDates(github: Option<int>, bitbucket: Option<int>)

  datatype GithubCredentials = GithubCredentials(token: string)

  datatype BitbucketCredentials = BitbucketCredentials(username: string, appPassword: string)

  datatype Credentials = Credentials(github: Option<GithubCredentials>, bitbucket: Option<BitbucketCredentials>)

  /** `credentials.github?.token` is truthy. */
  predicate HasGithubToken(c: Credentials) {
    c.github.Some? && c.github.value.token != ""
  }

  /** `credentials.bitbucket?.username && credentials.bitbucket?.appPassword` is truthy. */
  predicate HasBitbucketCredentials(c: Credentials) {
    c.bitbucket.Some? && c.bitbucket.value.username != "" && c.bitbucket.value.appPassword != ""
  }

  datatype GithubUser = GithubUser(login: string, name: string, avatarUrl: string)

  datatype ReviewersList = ReviewersList(id: string, name: string, users: seq<GithubUser>)

  datatype TabType = Reviews | MyPrs | GhReviewers | BbWhitelist
}
