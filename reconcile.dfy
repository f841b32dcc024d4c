/**
 * Reconciliation of freshly fetched pull requests into the stored list (src/utils.ts):
 * every stored record whose `source + id` key comes back in the fetch is dropped, and
 * the fetched records are pushed after the survivors.
 */
module Reconcile {
  import opened Types
  import opened Seqs

  /** `allPRs.map(pr => pr.source + pr.id)`. */
  function KeysOf(prs: seq<PullRequest>): (keys: seq<string>)
    ensures |keys| == |prs|
    ensures forall i :: 0 <= i < |prs| ==> keys[i] == Key(prs[i])
  {
    seq(|prs|, i requires 0 <= i < |prs| => Key(prs[i]))
  }

  /** Some record of `incoming` has the same key as `pr`. */
  predicate IsRefetched(pr: PullRequest, incoming: seq<PullRequest>) {
    exists q :: q in incoming && Key(q) == Key(pr)
  }

  /** The filter callback `pr => !newPRIDs.includes(pr.source + pr.id)`. */
  function NotRefetched(incoming: seq<PullRequest>): PullRequest -> bool {
    var newPRIDs := KeysOf(incoming);
    pr => Key(pr) !in newPRIDs
  }

  lemma NotRefetchedMeaning(incoming: seq<PullRequest>, pr: PullRequest)
    ensures NotRefetched(incoming)(pr) <==> !IsRefetched(pr, incoming)
  {
    var keys := KeysOf(incoming);
    if Key(pr) in keys {
      var i :| 0 <= i < |keys| && keys[i] == Key(pr);
      assert incoming[i] in incoming;
    }
    if IsRefetched(pr, incoming) {
      var q :| q in incoming && Key(q) == Key(pr);
      var i :| 0 <= i < |incoming| && incoming[i] == q;
      assert keys[i] == Key(pr);
    }
  }

  /**
   * `updatePRArray(currentPrs, allPRs)`: the stored records that were not refetched, in
   * their stored order, followed by every fetched record in fetch order.
   */
  function UpdatePRArray(currentPrs: seq<PullRequest>, allPRs: seq<PullRequest>): (r: seq<PullRequest>)
    ensures |allPRs| <= |r| && r[|r| - |allPRs|..] == allPRs
    ensures forall pr :: pr in r[..|r| - |allPRs|] <==> pr in currentPrs && !IsRefetched(pr, allPRs)
  {
    var kept := Filter(currentPrs, NotRefetched(allPRs));
    var r := kept + allPRs;
    assert r[..|kept|] == kept && r[|kept|..] == allPRs;
    forall pr ensures NotRefetched(allPRs)(pr) <==> !IsRefetched(pr, allPRs) {
      NotRefetchedMeaning(allPRs, pr);
    }
    r
  }

  /** The records of `r` that `UpdatePRArray` kept from the stored list. */
  function KeptPart(r: seq<PullRequest>, allPRs: seq<PullRequest>): seq<PullRequest>
    requires |allPRs| <= |r|
  {
    r[..|r| - |allPRs|]
  }

  lemma KeptPartIsFilter(currentPrs: seq<PullRequest>, allPRs: seq<PullRequest>)
    ensures KeptPart(UpdatePRArray(currentPrs, allPRs), allPRs) == Filter(currentPrs, NotRefetched(allPRs))
  {
    var kept := Filter(currentPrs, NotRefetched(allPRs));
    assert (kept + allPRs)[..|kept|] == kept;
  }

  /** Merging an empty fetch returns the stored list unchanged, in the same order. */
  lemma MergeNothingFetched(currentPrs: seq<PullRequest>)
    ensures UpdatePRArray(currentPrs, []) == currentPrs
  {
    FilterKeepsAll(currentPrs, NotRefetched([]));
  }

  /** The stored records that survive keep their relative order. */
  lemma MergeKeepsStoredOrder(currentPrs: seq<PullRequest>, allPRs: seq<PullRequest>)
    ensures IsSubsequence(KeptPart(UpdatePRArray(currentPrs, allPRs), allPRs), currentPrs)
  {
    KeptPartIsFilter(currentPrs, allPRs);
    FilterIsSubsequence(currentPrs, NotRefetched(allPRs));
  }

  /** The result holds the surviving stored records plus every fetched record, nothing more. */
  lemma MergeLength(currentPrs: seq<PullRequest>, allPRs: seq<PullRequest>)
    ensures |UpdatePRArray(currentPrs, allPRs)| == Count(currentPrs, NotRefetched(allPRs)) + |allPRs|
  {
    FilterLength(currentPrs, NotRefetched(allPRs));
  }

  /** Merging the same fetch a second time changes nothing. */
  lemma MergeIdempotent(currentPrs: seq<PullRequest>, allPRs: seq<PullRequest>)
    ensures UpdatePRArray(UpdatePRArray(currentPrs, allPRs), allPRs) == UpdatePRArray(currentPrs, allPRs)
  {
    var p := NotRefetched(allPRs);
    var kept := Filter(currentPrs, p);
    FilterConcat(kept, allPRs, p);
    FilterIdempotent(currentPrs, p);
    forall q | q in allPRs ensures !p(q) {
      NotRefetchedMeaning(allPRs, q);
    }
    FilterDropsAll(allPRs, p);
  }

  /** With key-distinct stored and fetched lists, the merged list is key-distinct too. */
  lemma MergeKeepsKeysDistinct(currentPrs: seq<PullRequest>, allPRs: seq<PullRequest>)
    requires DistinctBy(currentPrs, Key) && DistinctBy(allPRs, Key)
    ensures DistinctBy(UpdatePRArray(currentPrs, allPRs), Key)
  {
    var p := NotRefetched(allPRs);
    var kept := Filter(currentPrs, p);
    FilterDistinctBy(currentPrs, p, Key);
    forall x, y | x in kept && y in allPRs ensures Key(x) != Key(y) {
      NotRefetchedMeaning(allPRs, x);
    }
    DistinctByConcat(kept, allPRs, Key);
  }

  /**
   * A record of the key-distinct tail `r[n..]` whose key no record before `n` has is the
   * only record of `r` with that key.
   */
  lemma {:induction false} UniqueKeyAt(r: seq<PullRequest>, n: nat, pr: PullRequest)
    requires n <= |r| && DistinctBy(r[n..], Key) && pr in r[n..]
    requires forall i :: 0 <= i < n ==> Key(r[i]) != Key(pr)
    ensures pr in r
    ensures forall i :: 0 <= i < |r| && Key(r[i]) == Key(pr) ==> r[i] == pr
    ensures forall i, j :: 0 <= i < |r| && 0 <= j < |r| && Key(r[i]) == Key(pr) && Key(r[j]) == Key(pr) ==> i == j
  {
    var tail := r[n..];
    var k :| 0 <= k < |tail| && tail[k] == pr;
    assert r[n + k] == pr;
    forall i | 0 <= i < |r| && Key(r[i]) == Key(pr) ensures i == n + k {
      assert r[i] == tail[i - n];
      assert !(i - n < k) && !(k < i - n);
    }
  }

  /**
   * A fetched record replaces every stored record with its key: when the fetch is
   * key-distinct, the merged list holds exactly one record with that key, the fetched one.
   */
  lemma {:induction false} MergeReplaces(currentPrs: seq<PullRequest>, allPRs: seq<PullRequest>, pr: PullRequest)
    requires DistinctBy(allPRs, Key)
    requires pr in allPRs
    ensures var r := UpdatePRArray(currentPrs, allPRs);
      && pr in r
      && (forall i :: 0 <= i < |r| && Key(r[i]) == Key(pr) ==> r[i] == pr)
      && (forall i, j :: 0 <= i < |r| && 0 <= j < |r| && Key(r[i]) == Key(pr) && Key(r[j]) == Key(pr) ==> i == j)
  {
    var r := UpdatePRArray(currentPrs, allPRs);
    KeptKeysNotFetched(currentPrs, allPRs, pr);
    UniqueKeyAt(r, |r| - |allPRs|, pr);
  }

  /** No record the merge kept from the stored list has the key of a fetched record. */
  lemma KeptKeysNotFetched(currentPrs: seq<PullRequest>, allPRs: seq<PullRequest>, pr: PullRequest)
    requires pr in allPRs
    ensures var r := UpdatePRArray(currentPrs, allPRs);
      forall i :: 0 <= i < |r| - |allPRs| ==> Key(r[i]) != Key(pr)
  {
    var r := UpdatePRArray(currentPrs, allPRs);
    var n := |r| - |allPRs|;
    forall i | 0 <= i < n ensures Key(r[i]) != Key(pr) {
      assert r[i] in r[..n];
    }
  }

  /** Duplicates inside one fetch are not collapsed: both copies are pushed. */
  lemma FetchedDuplicatesKept(currentPrs: seq<PullRequest>, pr: PullRequest)
    ensures !DistinctBy(UpdatePRArray(currentPrs, [pr, pr]), Key)
  {
    var r := UpdatePRArray(currentPrs, [pr, pr]);
    assert r[|r| - 2] == pr && r[|r| - 1] == pr;
  }

  function SampleGithubPR(id: string, status: Status): PullRequest {
    PullRequest(id, "t", "", Author("a", ""), "o/r", "b", status, 0, 0, "", "", Github, "", false, false, false)
  }

  /**
   * Stored: GitHub PR "1" open. Fetched: PR "1" now merged and a new PR "2". The merged
   * list is exactly the two fetched records; the stale open copy of "1" is gone.
   */
  lemma MergeScenario()
    ensures UpdatePRArray([SampleGithubPR("1", Open)], [SampleGithubPR("1", Merged), SampleGithubPR("2", Open)])
      == [SampleGithubPR("1", Merged), SampleGithubPR("2", Open)]
  {
    var stale := SampleGithubPR("1", Open);
    var fetched := [SampleGithubPR("1", Merged), SampleGithubPR("2", Open)];
    assert Key(fetched[0]) == Key(stale);
    NotRefetchedMeaning(fetched, stale);
    assert Filter([stale], NotRefetched(fetched)) == [];
  }
}
