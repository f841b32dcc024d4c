/**
 * The reviewer-list store (src/hooks/useReviewerLists.ts): an ordered sequence of named
 * lists of GitHub users, each with an id, that can be appended to, removed from by id and
 * replaced by id.
 */
module ReviewerLists {
  import opened Wrappers
  import opened Seqs
  import opened Types

  function IdOf(l: ReviewersList): string {
    l.id
  }

  function NotId(id: string): ReviewersList -> bool {
    (l: ReviewersList) => l.id != id
  }

  /** The ids of the lists, in order. */
  function Ids(lists: seq<ReviewersList>): (ids: seq<string>)
    ensures |ids| == |lists|
    ensures forall i :: 0 <= i < |lists| ==> ids[i] == lists[i].id
  {
    seq(|lists|, i requires 0 <= i < |lists| => lists[i].id)
  }

  /** `prev.filter(list => list.id !== id)`. */
  function Removed(lists: seq<ReviewersList>, id: string): (r: seq<ReviewersList>)
    ensures forall l :: l in r <==> l in lists && l.id != id
    ensures IsSubsequence(r, lists)
    ensures |r| == Count(lists, NotId(id))
  {
    FilterIsSubsequence(lists, NotId(id));
    FilterLength(lists, NotId(id));
    Filter(lists, NotId(id))
  }

  /** Removing an id no list carries changes nothing. */
  lemma RemoveAbsentIsNoOp(lists: seq<ReviewersList>, id: string)
    requires id !in Ids(lists)
    ensures Removed(lists, id) == lists
  {
    forall l | l in lists ensures NotId(id)(l) {
      var k :| 0 <= k < |lists| && lists[k] == l;
      assert Ids(lists)[k] == l.id;
    }
    FilterKeepsAll(lists, NotId(id));
  }

  /** `prev.map(list => list.id === updatedList.id ? updatedList : list)`. */
  function Updated(lists: seq<ReviewersList>, updated: ReviewersList): (r: seq<ReviewersList>)
    ensures |r| == |lists| && Ids(r) == Ids(lists)
    ensures forall i :: 0 <= i < |lists| && lists[i].id != updated.id ==> r[i] == lists[i]
    ensures forall i :: 0 <= i < |lists| && lists[i].id == updated.id ==> r[i] == updated
    ensures updated.id !in Ids(lists) ==> r == lists
  {
    seq(|lists|, i requires 0 <= i < |lists| => if lists[i].id == updated.id then updated else lists[i])
  }

  /** No two lists share an id. */
  ghost predicate IdsDistinct(lists: seq<ReviewersList>) {
    DistinctBy(lists, IdOf)
  }

  /** Appending a list whose id is new keeps the ids distinct. */
  lemma AddKeepsIdsDistinct(lists: seq<ReviewersList>, freshId: string, name: string)
    requires IdsDistinct(lists) && freshId !in Ids(lists)
    ensures IdsDistinct(lists + [ReviewersList(freshId, name, [])])
  {
    var added := ReviewersList(freshId, name, []);
    forall x, y | x in lists && y in [added] ensures IdOf(x) != IdOf(y) {
      var k :| 0 <= k < |lists| && lists[k] == x;
      assert Ids(lists)[k] == x.id;
    }
    DistinctByConcat(lists, [added], IdOf);
  }

  /** Removing keeps the ids distinct. */
  lemma RemoveKeepsIdsDistinct(lists: seq<ReviewersList>, id: string)
    requires IdsDistinct(lists)
    ensures IdsDistinct(Removed(lists, id))
  {
    FilterDistinctBy(lists, NotId(id), IdOf);
  }

  /** Replacing by id keeps the ids distinct, since every position keeps its id. */
  lemma UpdateKeepsIdsDistinct(lists: seq<ReviewersList>, updated: ReviewersList)
    requires IdsDistinct(lists)
    ensures IdsDistinct(Updated(lists, updated))
  {
    var r := Updated(lists, updated);
    forall i, j | 0 <= i < j < |r| ensures IdOf(r[i]) != IdOf(r[j]) {
      assert Ids(r)[i] == Ids(lists)[i] && Ids(r)[j] == Ids(lists)[j];
    }
  }

  /** After removing an id no list carries it, and removing it again changes nothing. */
  lemma RemoveIsFinal(lists: seq<ReviewersList>, id: string)
    ensures id !in Ids(Removed(lists, id))
    ensures Removed(Removed(lists, id), id) == Removed(lists, id)
  {
    var r := Removed(lists, id);
    forall k | 0 <= k < |r| ensures Ids(r)[k] != id {
      assert r[k] in r;
    }
    RemoveAbsentIsNoOp(r, id);
  }

  /** The `lists` state of the hook. */
  class ReviewerListStore {
    var lists: seq<ReviewersList>

    /** The lists kept under `gh-reviewer-lists`, or none. */
    constructor(stored: Option<seq<ReviewersList>>)
      ensures lists == stored.GetOr([])
      ensures stored.None? ==> lists == []
    {
      lists := stored.GetOr([]);
    }

    /** `addList(name)`, with the fresh id as an input. */
    method AddList(name: string, freshId: string)
      modifies this
      ensures lists == old(lists) + [ReviewersList(freshId, name, [])]
    {
      var newList := ReviewersList(freshId, name, []);
      lists := lists + [newList];
    }

    /** `removeList(id)`. */
    method RemoveList(id: string)
      modifies this
      ensures lists == Removed(old(lists), id)
    {
      lists := Removed(lists, id);
    }

    /** `updateList(updatedList)`. */
    method UpdateList(updated: ReviewersList)
      modifies this
      ensures lists == Updated(old(lists), updated)
    {
      lists := Updated(lists, updated);
    }
  }
}
