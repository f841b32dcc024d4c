/**
 * One reviewer list's card (src/components/reviewers/ReviewersList.tsx): adding a GitHub user
 * looked up by name when no member has that login, and removing members by login. Neither
 * changes the list itself: each hands the parent the list it should store.
 */
module ReviewerMembers {
  import opened Wrappers
  import opened Seqs
  import opened Text
  import opened Types
  import opened Failures

  function LoginOf(u: GithubUser): string {
    u.login
  }

  function NotLogin(login: string): GithubUser -> bool {
    (u: GithubUser) => u.login != login
  }

  /** `users.some(u => u.login === login)`. */
  predicate HasLogin(users: seq<GithubUser>, login: string) {
    exists u :: u in users && u.login == login
  }

  /** `{...list, users: [...list.users, user]}`. */
  function WithUser(list: ReviewersList, user: GithubUser): (r: ReviewersList)
    ensures r.id == list.id && r.name == list.name
    ensures |r.users| == |list.users| + 1
    ensures r.users[..|list.users|] == list.users && r.users[|list.users|..] == [user]
  {
    list.(users := list.users + [user])
  }

  /** `{...list, users: list.users.filter(user => user.login !== login)}`. */
  function WithoutUser(list: ReviewersList, login: string): (r: ReviewersList)
    ensures r.id == list.id && r.name == list.name
    ensures forall u :: u in r.users <==> u in list.users && u.login != login
    ensures IsSubsequence(r.users, list.users)
    ensures |r.users| == Count(list.users, NotLogin(login))
    ensures !HasLogin(r.users, login)
  {
    FilterIsSubsequence(list.users, NotLogin(login));
    FilterLength(list.users, NotLogin(login));
    list.(users := Filter(list.users, NotLogin(login)))
  }

  /** Adding a user whose login is absent keeps the logins distinct. */
  lemma AddKeepsLoginsDistinct(list: ReviewersList, user: GithubUser)
    requires DistinctBy(list.users, LoginOf) && !HasLogin(list.users, user.login)
    ensures DistinctBy(WithUser(list, user).users, LoginOf)
  {
    DistinctByConcat(list.users, [user], LoginOf);
  }

  /** Removing keeps the logins distinct. */
  lemma RemoveKeepsLoginsDistinct(list: ReviewersList, login: string)
    requires DistinctBy(list.users, LoginOf)
    ensures DistinctBy(WithoutUser(list, login).users, LoginOf)
  {
    FilterDistinctBy(list.users, NotLogin(login), LoginOf);
  }

  /** Removing a user just added gives the list back. */
  lemma RemoveUndoesAdd(list: ReviewersList, user: GithubUser)
    requires !HasLogin(list.users, user.login)
    ensures WithoutUser(WithUser(list, user), user.login) == list
  {
    FilterConcat(list.users, [user], NotLogin(user.login));
    FilterKeepsAll(list.users, NotLogin(user.login));
    assert Filter([user], NotLogin(user.login)) == [];
  }

  /** The card's own state around the list it shows. */
  class ReviewersListCard {
    const list: ReviewersList
    var newUsername: string
    var loading: bool

    constructor(list: ReviewersList)
      ensures this.list == list && newUsername == "" && !loading
    {
      this.list := list;
      newUsername := "";
      loading := false;
    }

    /**
     * `handleAddUser`, with `fetchGithubUser` as the input `lookup`. `update` is what the
     * card hands to `onUpdate`, if anything.
     */
    method HandleAddUser(lookup: string -> Attempt<GithubUser>) returns (update: Option<ReviewersList>)
      modifies this
      ensures IsBlank(old(newUsername)) ==> update == None && newUsername == old(newUsername) && loading == old(loading)
      ensures !IsBlank(old(newUsername)) ==> !loading
      ensures !IsBlank(old(newUsername)) && lookup(old(newUsername)).Threw? ==>
        update == None && newUsername == old(newUsername)
      ensures !IsBlank(old(newUsername)) && lookup(old(newUsername)).Returned? ==>
        var user := lookup(old(newUsername)).value;
        && newUsername == ""
        && (update.Some? <==> !HasLogin(list.users, user.login))
        && (update.Some? ==> update.value == WithUser(list, user))
    {
      update := None;
      if IsBlank(newUsername) {
        return;
      }
      loading := true;
      match lookup(newUsername) {
        case Returned(user) =>
          if !(exists u :: u in list.users && u.login == user.login) {
            update := Some(WithUser(list, user));
          }
          newUsername := "";
        case Threw(_) =>
      }
      loading := false;
    }

    /** `removeUser(user)`: the list handed to `onUpdate`. */
    function RemoveUser(user: GithubUser): (update: ReviewersList)
      reads this
    {
      WithoutUser(list, user.login)
    }
  }
}
