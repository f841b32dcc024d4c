/**
 * The header's tab strip and list controls (src/components/Header.tsx): a fixed table of four
 * tabs of which the reviewer and whitelist tabs are enabled by the configured credentials,
 * the enabled ones rendered in table order, and the mapping between the selected tab and
 * the index the tab strip works with.
 *
 * The tab strip numbers the tabs it renders, but the header translates those numbers through
 * the whole table. The `...AsWritten` members model that; `SelectedIndex` and `OnChange`
 * translate through the rendered tabs instead.
 */
module Header {
  import opened Seqs
  import opened Types

  datatype TabEntry = TabEntry(id: TabType, name: string, enabled: bool)

  /** The `tabs` table. */
  function Tabs(hasGithubToken: bool, hasBitbucketCreds: bool): seq<TabEntry> {
    [ TabEntry(Reviews, "To Review", true),
      TabEntry(MyPrs, "My PRs", true),
      TabEntry(GhReviewers, "GH Reviewers", hasGithubToken),
      TabEntry(BbWhitelist, "BB Whitelist", hasBitbucketCreds) ]
  }

  predicate Enabled(tab: TabEntry) {
    tab.enabled
  }

  function TabId(tab: TabEntry): TabType {
    tab.id
  }

  /** `tabs.filter(tab => tab.enabled)`: what the strip renders. */
  function RenderedTabs(tabs: seq<TabEntry>): (r: seq<TabEntry>)
    ensures |r| <= |tabs|
  {
    Filter(tabs, Enabled)
  }

  function TabIds(tabs: seq<TabEntry>): (ids: seq<TabType>)
    ensures |ids| == |tabs|
    ensures forall k :: 0 <= k < |tabs| ==> ids[k] == tabs[k].id
  {
    seq(|tabs|, k requires 0 <= k < |tabs| => tabs[k].id)
  }

  /** The tab as rendered: itself when enabled, nothing otherwise. */
  function Shown(tab: TabEntry): (r: seq<TabEntry>)
    ensures r == [] || r == [tab]
  {
    if tab.enabled then [tab] else []
  }

  /** A table of four tabs renders each enabled one, in table order. */
  lemma RenderedTabsOfFour(a: TabEntry, b: TabEntry, c: TabEntry, d: TabEntry)
    ensures RenderedTabs([a, b, c, d]) == Shown(a) + (Shown(b) + (Shown(c) + Shown(d)))
  {
    var s3 := [d] + [];
    var s2 := [c] + s3;
    var s1 := [b] + s2;
    var s0 := [a] + s1;
    assert s0 == [a, b, c, d];
    assert Filter([], Enabled) == [];
    FilterCons(d, [], Enabled);
    assert Filter(s3, Enabled) == Shown(d);
    FilterCons(c, s3, Enabled);
    assert Filter(s2, Enabled) == Shown(c) + Shown(d);
    FilterCons(b, s2, Enabled);
    assert Filter(s1, Enabled) == Shown(b) + (Shown(c) + Shown(d));
    FilterCons(a, s1, Enabled);
  }

  lemma RenderedTabsOfTableEntries(hasGithubToken: bool, hasBitbucketCreds: bool)
    ensures var tabs := Tabs(hasGithubToken, hasBitbucketCreds);
      RenderedTabs(tabs) == [tabs[0], tabs[1]] + (if hasGithubToken then [tabs[2]] else []) + (if hasBitbucketCreds then [tabs[3]] else [])
  {
    var tabs := Tabs(hasGithubToken, hasBitbucketCreds);
    assert tabs == [tabs[0], tabs[1], tabs[2], tabs[3]];
    RenderedTabsOfFour(tabs[0], tabs[1], tabs[2], tabs[3]);
    assert Shown(tabs[0]) == [tabs[0]] && Shown(tabs[1]) == [tabs[1]];
  }

  /** The reviews and own-pull-requests tabs are always rendered; the other two exactly when their credentials are set. */
  lemma RenderedTabsOfTable(hasGithubToken: bool, hasBitbucketCreds: bool)
    ensures TabIds(RenderedTabs(Tabs(hasGithubToken, hasBitbucketCreds)))
      == [Reviews, MyPrs] + (if hasGithubToken then [GhReviewers] else []) + (if hasBitbucketCreds then [BbWhitelist] else [])
  {
    RenderedTabsOfTableEntries(hasGithubToken, hasBitbucketCreds);
  }

  /** `tabs.findIndex(tab => tab.id === id)`; -1 when absent. */
  function FindIndex(tabs: seq<TabEntry>, id: TabType): (r: int)
    ensures -1 <= r < |tabs|
    ensures r == -1 <==> forall k :: 0 <= k < |tabs| ==> tabs[k].id != id
    ensures r >= 0 ==> tabs[r].id == id && forall k :: 0 <= k < r ==> tabs[k].id != id
  {
    if tabs == [] then -1
    else if tabs[0].id == id then 0
    else
      var r := FindIndex(tabs[1..], id);
      if r == -1 then -1 else r + 1
  }

  /** `selectedIndex` as written: the position in the whole table. */
  function SelectedIndexAsWritten(tabs: seq<TabEntry>, currentTab: TabType): int {
    FindIndex(tabs, currentTab)
  }

  /** `onChange` as written: the strip's index looked up in the whole table. */
  function OnChangeAsWritten(tabs: seq<TabEntry>, index: nat): TabType
    requires index < |RenderedTabs(tabs)|
  {
    tabs[index].id
  }

  /**
   * With no GitHub token and Bitbucket credentials, clicking the third rendered tab (the
   * whitelist) selects the reviewers tab, and selecting the whitelist asks the strip for a
   * fourth tab it does not render.
   */
  lemma AsWrittenPicksWrongTab()
    ensures var tabs := Tabs(false, true);
      && |RenderedTabs(tabs)| == 3
      && RenderedTabs(tabs)[2].id == BbWhitelist
      && OnChangeAsWritten(tabs, 2) == GhReviewers
      && SelectedIndexAsWritten(tabs, BbWhitelist) == 3
  {
    RenderedTabsOfTable(false, true);
    var tabs := Tabs(false, true);
    assert TabIds(RenderedTabs(tabs))[2] == BbWhitelist;
  }

  /** When the GitHub tab is enabled the two numberings agree, so the mistake never shows. */
  lemma AsWrittenAgreesWithGithubToken(hasBitbucketCreds: bool, index: nat)
    requires index < |RenderedTabs(Tabs(true, hasBitbucketCreds))|
    ensures OnChangeAsWritten(Tabs(true, hasBitbucketCreds), index) == RenderedTabs(Tabs(true, hasBitbucketCreds))[index].id
  {
    RenderedTabsOfTable(true, hasBitbucketCreds);
    var tabs := Tabs(true, hasBitbucketCreds);
    assert TabIds(RenderedTabs(tabs))[index] == RenderedTabs(tabs)[index].id;
  }

  /** The corrected `selectedIndex`: the position among the rendered tabs. */
  function SelectedIndex(tabs: seq<TabEntry>, currentTab: TabType): int {
    FindIndex(RenderedTabs(tabs), currentTab)
  }

  /** The corrected `onChange`: the rendered tab at the strip's index. */
  function OnChange(tabs: seq<TabEntry>, index: nat): TabType
    requires index < |RenderedTabs(tabs)|
  {
    RenderedTabs(tabs)[index].id
  }

  /** No two tabs of the table share an id. */
  lemma TableIdsDistinct(hasGithubToken: bool, hasBitbucketCreds: bool)
    ensures DistinctBy(Tabs(hasGithubToken, hasBitbucketCreds), TabId)
  {
  }

  /**
   * The corrected mapping round-trips: clicking a rendered tab selects it, and a selected
   * tab that is rendered is the one at its index.
   */
  lemma CorrectedRoundTrip(hasGithubToken: bool, hasBitbucketCreds: bool, index: nat, currentTab: TabType)
    requires index < |RenderedTabs(Tabs(hasGithubToken, hasBitbucketCreds))|
    ensures SelectedIndex(Tabs(hasGithubToken, hasBitbucketCreds), OnChange(Tabs(hasGithubToken, hasBitbucketCreds), index)) == index
    ensures var i := SelectedIndex(Tabs(hasGithubToken, hasBitbucketCreds), currentTab);
      i >= 0 ==> OnChange(Tabs(hasGithubToken, hasBitbucketCreds), i) == currentTab
  {
    var tabs := Tabs(hasGithubToken, hasBitbucketCreds);
    var rendered := RenderedTabs(tabs);
    TableIdsDistinct(hasGithubToken, hasBitbucketCreds);
    FilterDistinctBy(tabs, Enabled, TabId);
    var r := FindIndex(rendered, rendered[index].id);
    assert TabId(rendered[r]) == TabId(rendered[index]);
  }

  /** The open-only toggle, platform filter and refresh button are shown only on the two pull-request tabs. */
  predicate ShowsListControls(currentTab: TabType) {
    currentTab != GhReviewers && currentTab != BbWhitelist
  }

  /** The refresh button can be clicked only where it is shown and only when no refresh is running. */
  predicate RefreshClickable(currentTab: TabType, refreshing: bool) {
    ShowsListControls(currentTab) && !refreshing
  }

  lemma ListControlsOnPullRequestTabs(currentTab: TabType, refreshing: bool)
    ensures ShowsListControls(currentTab) <==> currentTab == Reviews || currentTab == MyPrs
    ensures RefreshClickable(currentTab, refreshing) ==> !refreshing && (currentTab == Reviews || currentTab == MyPrs)
  {
  }
}
