/**
 * The values a pull-request card derives from its record (src/components/PRCard.tsx): the
 * status badge colour, the owner and repository taken from `repository`, the pull-request
 * number taken from `url`, and whether the add-reviewers popover is shown.
 */
module PrCard {
  import opened Wrappers
  import opened Text
  import opened Types

  /** The `statusColors` table. */
  function StatusColor(status: Status): string {
    match status
    case Open => "bg-green-100 text-green-800"
    case Merged => "bg-purple-100 text-purple-800"
    case Closed => "bg-red-100 text-red-800"
  }

  /** The table gives every status its own colour. */
  lemma StatusColorsDiffer(a: Status, b: Status)
    ensures StatusColor(a) == StatusColor(b) <==> a == b
  {
    if a != b {
      assert StatusColor(a)[3] != StatusColor(b)[3];
    }
  }

  /** `const [owner, repo] = repository.split('/')`; `repo` is undefined when there is no `/`. */
  function OwnerAndRepo(repository: string): (r: (string, Option<string>)) {
    var parts := Split(repository, "/");
    (parts[0], if |parts| >= 2 then Some(parts[1]) else None)
  }

  /**
   * The owner is the text before the first `/` (all of it when there is none), and the
   * repository is the text between the first `/` and the next one or the end.
   */
  lemma OwnerAndRepoMeaning(repository: string)
    ensures var (owner, repo) := OwnerAndRepo(repository);
      && '/' !in owner && |owner| <= |repository| && repository[..|owner|] == owner
      && (repo.None? <==> '/' !in repository)
      && (repo.Some? ==>
            && '/' !in repo.value && |owner| + 1 + |repo.value| <= |repository|
            && repository[|owner|] == '/'
            && repository[|owner| + 1..|owner| + 1 + |repo.value|] == repo.value)
  {
    var parts := Split(repository, "/");
    var owner := parts[0];
    NoOccurrenceNoChar(owner, '/');
    JoinStartsWithFirst(parts, "/");
    if |parts| >= 2 {
      var rest := Join(parts[1..], "/");
      assert repository == owner + "/" + rest;
      NoOccurrenceNoChar(parts[1], '/');
      JoinStartsWithFirst(parts[1..], "/");
      assert repository[|owner|] == '/';
      assert repository[|owner| + 1..] == rest;
    }
  }

  /** A `workspace/name` repository gives back its two halves. */
  lemma OwnerAndRepoOfFullName(owner: string, repo: string)
    requires '/' !in owner && '/' !in repo
    ensures OwnerAndRepo(owner + "/" + repo) == (owner, Some(repo))
  {
    assert Join([owner, repo], "/") == owner + "/" + repo;
    SplitJoinChar([owner, repo], '/');
  }

  const PULL_SEGMENT: string := "/pull/"

  /** `parseInt(url.split('/pull/')[1], 10)`; `None` stands for NaN, including when there is no `/pull/`. */
  function PrNumber(url: string): Option<int> {
    var parts := Split(url, PULL_SEGMENT);
    if |parts| < 2 then None else ParseInt(parts[1])
  }

  /** A URL without `/pull/` (a Bitbucket `/pull-requests/` link, say) gives NaN. */
  lemma PrNumberWithoutPullSegment(url: string)
    requires !Contains(url, PULL_SEGMENT)
    ensures PrNumber(url) == None
  {
    assert IndexOf(url, PULL_SEGMENT, 0).None?;
  }

  /** A GitHub link `<prefix>/pull/<n>` gives `n`, when the `/pull/` is the first one. */
  lemma PrNumberOfPullUrl(prefix: string, n: nat)
    requires !Contains(prefix + "/pull", PULL_SEGMENT)
    ensures PrNumber(prefix + PULL_SEGMENT + NatToString(n)) == Some(n)
  {
    var sep := PULL_SEGMENT;
    var d := NatToString(n);
    var s := prefix + sep + d;
    var before := prefix + "/pull";
    assert OccursAt(s, sep, |prefix|) by {
      assert s[|prefix|..|prefix| + |sep|] == sep;
    }
    forall j: nat | j < |prefix| ensures !OccursAt(s, sep, j) {
      assert !OccursAt(before, sep, j);
      assert s[j..j + |sep|] == before[j..j + |sep|];
    }
    assert IndexOf(s, sep, 0) == Some(|prefix|);
    assert s[..|prefix|] == prefix;
    assert s[|prefix| + |sep|..] == d;
    forall j: nat ensures !OccursAt(d, sep, j) {
      if j + |sep| <= |d| {
        assert d[j..j + |sep|][0] == d[j];
      }
    }
    assert Split(d, sep) == [d];
    assert Split(s, sep) == [prefix, d];
    ParseIntOfNatToString(n, []);
    assert d + [] == d;
  }

  /** `pr.isOwner && pr.source === 'github' && githubToken`: when the popover is rendered. */
  predicate ShowsAddReviewers(pr: PullRequest, githubToken: Option<string>) {
    pr.isOwner && pr.source == Github && githubToken.Some? && githubToken.value != ""
  }

  /** Bitbucket cards never render the popover, so the NaN their links give never reaches it. */
  lemma BitbucketCardsHaveNoPopover(pr: PullRequest, githubToken: Option<string>)
    requires pr.source == Bitbucket
    ensures !ShowsAddReviewers(pr, githubToken)
  {
  }
}
