/**
 * The Bitbucket repository whitelist form (src/components/BitbucketWhitelist.tsx): a
 * `workspace/repo` name is added when both inputs are non-blank, the name is not listed yet
 * and the repository answers a lookup; names are removed by value. Every change is written
 * back to `bb-whitelisted-repos`.
 */
module BitbucketWhitelist {
  import opened Wrappers
  import opened Seqs
  import opened Text

  const REPOSITORIES_ENDPOINT: string := "https://api.bitbucket.org/2.0/repositories/"

  /** `${workspace}/${repo}`, from the inputs as typed (not trimmed). */
  function FullName(workspace: string, repo: string): string {
    workspace + "/" + repo
  }

  /** The lookup that verifies a repository exists. */
  function VerifyUrl(fullName: string): (url: string)
    ensures |url| == |REPOSITORIES_ENDPOINT| + |fullName|
    ensures url[..|REPOSITORIES_ENDPOINT|] == REPOSITORIES_ENDPOINT && url[|REPOSITORIES_ENDPOINT|..] == fullName
  {
    REPOSITORIES_ENDPOINT + fullName
  }

  /** A name built from inputs without `/` splits back into workspace and repository. */
  lemma FullNameSplits(workspace: string, repo: string)
    requires '/' !in workspace && '/' !in repo
    ensures Split(FullName(workspace, repo), "/") == [workspace, repo]
  {
    assert Join([workspace, repo], "/") == FullName(workspace, repo);
    SplitJoinChar([workspace, repo], '/');
  }

  function NotRepo(fullName: string): string -> bool {
    r => r != fullName
  }

  /** `whitelistedRepos.filter(r => r !== fullName)`. */
  function WithoutRepo(repos: seq<string>, fullName: string): (r: seq<string>)
    ensures forall x :: x in r <==> x in repos && x != fullName
    ensures IsSubsequence(r, repos)
    ensures |r| == Count(repos, NotRepo(fullName))
  {
    FilterIsSubsequence(repos, NotRepo(fullName));
    FilterLength(repos, NotRepo(fullName));
    Filter(repos, NotRepo(fullName))
  }

  /** Appending a name that is not listed keeps the whitelist free of duplicates. */
  lemma AddKeepsNoDuplicates(repos: seq<string>, fullName: string)
    requires Distinct(repos) && fullName !in repos
    ensures Distinct(repos + [fullName])
  {
    var r := repos + [fullName];
    forall i, j | 0 <= i < j < |r| ensures r[i] != r[j] {
      if j == |repos| {
        assert r[i] == repos[i];
      } else {
        assert r[i] == repos[i] && r[j] == repos[j];
      }
    }
  }

  function Identity(s: string): string {
    s
  }

  /** Removing keeps the whitelist free of duplicates. */
  lemma RemoveKeepsNoDuplicates(repos: seq<string>, fullName: string)
    requires Distinct(repos)
    ensures Distinct(WithoutRepo(repos, fullName))
  {
    assert DistinctBy(repos, Identity);
    FilterDistinctBy(repos, NotRepo(fullName), Identity);
  }

  /** Removing a name just added gives the whitelist back. */
  lemma RemoveUndoesAdd(repos: seq<string>, fullName: string)
    requires fullName !in repos
    ensures WithoutRepo(repos + [fullName], fullName) == repos
  {
    FilterConcat(repos, [fullName], NotRepo(fullName));
    FilterKeepsAll(repos, NotRepo(fullName));
    assert Filter([fullName], NotRepo(fullName)) == [];
  }

  /** How a submission ends. */
  datatype AddOutcome = Blank | AlreadyListed | NotVerified | Added

  /** The form's inputs, the whitelist it shows and the stored copy. */
  class WhitelistForm {
    var workspace: string
    var repo: string
    var whitelistedRepos: seq<string>
    /** `bb-whitelisted-repos` in storage. */
    var stored: Option<seq<string>>

    constructor(stored: Option<seq<string>>)
      ensures whitelistedRepos == stored.GetOr([]) && this.stored == stored
      ensures workspace == "" && repo == ""
    {
      workspace := "";
      repo := "";
      whitelistedRepos := stored.GetOr([]);
      this.stored := stored;
    }

    /**
     * `handleAddRepo`; `repoExists` says whether the lookup of a URL resolved with an OK
     * response (a failed request counts as not found).
     */
    method HandleAddRepo(repoExists: string -> bool) returns (outcome: AddOutcome)
      modifies this
      ensures var fullName := FullName(old(workspace), old(repo));
        && (outcome == Blank <==> IsBlank(old(workspace)) || IsBlank(old(repo)))
        && (outcome == AlreadyListed <==> outcome != Blank && fullName in old(whitelistedRepos))
        && (outcome == NotVerified <==> outcome != Blank && outcome != AlreadyListed && !repoExists(VerifyUrl(fullName)))
      ensures outcome == Added ==>
        && whitelistedRepos == old(whitelistedRepos) + [FullName(old(workspace), old(repo))]
        && stored == Some(whitelistedRepos)
        && workspace == "" && repo == ""
      ensures outcome != Added ==> unchanged(this)
    {
      if IsBlank(workspace) || IsBlank(repo) {
        return Blank;
      }
      var fullName := workspace + "/" + repo;
      if fullName in whitelistedRepos {
        return AlreadyListed;
      }
      if !repoExists(REPOSITORIES_ENDPOINT + fullName) {
        return NotVerified;
      }
      var newRepos := whitelistedRepos + [fullName];
      whitelistedRepos := newRepos;
      stored := Some(newRepos);
      workspace := "";
      repo := "";
      outcome := Added;
    }

    /** `handleRemoveRepo(fullName)`. */
    method HandleRemoveRepo(fullName: string)
      modifies this
      ensures whitelistedRepos == WithoutRepo(old(whitelistedRepos), fullName)
      ensures stored == Some(whitelistedRepos)
      ensures workspace == old(workspace) && repo == old(repo)
    {
      var newRepos := WithoutRepo(whitelistedRepos, fullName);
      whitelistedRepos := newRepos;
      stored := Some(newRepos);
    }
  }
}
