/**
 * The pull-request list card (src/components/PullRequestList.tsx): the check-status colour,
 * the platform filter over its records, and the token form state.
 */
module PullRequestList {
  import opened Seqs

  /**
   * The fields of a listed record (src/models/PullRequest.tsx) that this card reads; the
   * others are only displayed.
   */
  datatype ListedPr = ListedPr(id: string, platform: string, number: int, title: string, repository: string, link: string)

  /** `getStatusColor(status)`. */
  function GetStatusColor(status: string): string {
    match status
    case "pass" => "bg-green-500"
    case "fail" => "bg-red-500"
    case "waiting" => "bg-blue-400"
    case _ => "bg-gray-400"
  }

  /** Gray is the colour of every status except the three named ones, and those three get distinct colours. */
  lemma StatusColorCases(status: string)
    ensures GetStatusColor(status) == "bg-gray-400" <==> status != "pass" && status != "fail" && status != "waiting"
    ensures GetStatusColor("pass") != GetStatusColor("fail") && GetStatusColor("fail") != GetStatusColor("waiting")
    ensures GetStatusColor("waiting") != GetStatusColor("pass")
  {
  }

  function OnPlatform(platform: string): ListedPr -> bool {
    (pr: ListedPr) => pr.platform == platform
  }

  /** `filteredPRs`: every record for `all`, otherwise those of the chosen platform in order. */
  function FilteredPRs(prs: seq<ListedPr>, platform: string): (r: seq<ListedPr>)
    ensures platform == "all" ==> r == prs
    ensures platform != "all" ==> forall pr :: pr in r <==> pr in prs && pr.platform == platform
    ensures IsSubsequence(r, prs)
  {
    if platform == "all" then
      SubsequenceReflexive(prs);
      prs
    else
      FilterIsSubsequence(prs, OnPlatform(platform));
      Filter(prs, OnPlatform(platform))
  }

  lemma {:induction false} SubsequenceReflexive<T>(s: seq<T>)
    ensures IsSubsequence(s, s)
  {
    if s != [] {
      SubsequenceReflexive(s[1..]);
    }
  }

  /** A platform filter keeps exactly as many records as are on that platform, and applying it again changes nothing. */
  lemma FilterByPlatform(prs: seq<ListedPr>, platform: string)
    requires platform != "all"
    ensures |FilteredPRs(prs, platform)| == Count(prs, OnPlatform(platform))
    ensures FilteredPRs(FilteredPRs(prs, platform), platform) == FilteredPRs(prs, platform)
  {
    FilterLength(prs, OnPlatform(platform));
    FilterIdempotent(prs, OnPlatform(platform));
  }

  /** The token form: one entry per platform. */
  class TokenSettings {
    var tokens: map<string, string>

    constructor()
      ensures tokens == map["github" := "", "bitbucket" := ""]
    {
      tokens := map["github" := "", "bitbucket" := ""];
    }

    /** `handleTokenUpdate(platform, value)`: `{...prev, [platform]: value}`. */
    method HandleTokenUpdate(platform: string, value: string)
      modifies this
      ensures platform in tokens && tokens[platform] == value
      ensures tokens.Keys == old(tokens).Keys + {platform}
      ensures forall k :: k in old(tokens) && k != platform ==> tokens[k] == old(tokens)[k]
    {
      tokens := tokens[platform := value];
    }
  }
}
