/**
 * The list-creation form of the GitHub reviewers tab (src/components/reviewers/GHReviewers.tsx):
 * a blank name creates nothing, a name equal to an existing list's creates nothing, and any
 * other name, untrimmed, becomes a new empty list and the input is cleared.
 */
module GhReviewers {
  import opened Seqs
  import opened Text
  import opened Types
  import opened ReviewerLists

  /** `lists.some(list => list.name === name)`: exact comparison, no trimming. */
  predicate NameTaken(lists: seq<ReviewersList>, name: string) {
    exists l :: l in lists && l.name == name
  }

  /** Whether submitting `name` creates a list. */
  predicate CreateAccepted(lists: seq<ReviewersList>, name: string) {
    !IsBlank(name) && !NameTaken(lists, name)
  }

  function NameOf(l: ReviewersList): string {
    l.name
  }

  /** A created list never shares its name with an earlier one. */
  lemma CreateKeepsNamesDistinct(lists: seq<ReviewersList>, name: string, freshId: string)
    requires DistinctBy(lists, NameOf) && CreateAccepted(lists, name)
    ensures DistinctBy(lists + [ReviewersList(freshId, name, [])], NameOf)
  {
    DistinctByConcat(lists, [ReviewersList(freshId, name, [])], NameOf);
  }

  /** The comparison is exact: a name that differs from an existing one only by a trailing space is accepted. */
  lemma TrailingSpaceIsANewName()
    ensures CreateAccepted([ReviewersList("1", "a", [])], "a ")
  {
    var name := "a ";
    assert !IsJsWhitespace(name[0]) && IsJsWhitespace(name[1]);
    assert TrimStart(name) == name;
    assert name[..1] == "a";
    assert TrimEnd(name) == TrimEnd("a");
    assert Trim(name) != [];
    forall l | l in [ReviewersList("1", "a", [])] ensures l.name != name {
      assert |l.name| != |name|;
    }
  }

  /** The tab's own state, around the store it shares. */
  class GhReviewersForm {
    const store: ReviewerListStore
    var newListName: string

    constructor(store: ReviewerListStore)
      ensures this.store == store && newListName == ""
    {
      this.store := store;
      newListName := "";
    }

    /** `handleCreateList`, with the id `addList` draws as an input. */
    method HandleCreateList(freshId: string) returns (created: bool)
      modifies this, store
      ensures created <==> CreateAccepted(old(store.lists), old(newListName))
      ensures created ==> store.lists == old(store.lists) + [ReviewersList(freshId, old(newListName), [])] && newListName == ""
      ensures !created ==> store.lists == old(store.lists) && newListName == old(newListName)
    {
      if IsBlank(newListName) {
        return false;
      }
      if exists l :: l in store.lists && l.name == newListName {
        return false;
      }
      store.AddList(newListName, freshId);
      newListName := "";
      created := true;
    }
  }
}
