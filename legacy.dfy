/** The user and store pages that the application shell builds by hand: two
    global arrays (`allUsers`, `allStores`) filled by a load button, a search
    box (and, for users, a role selector) that re-filters them on every change,
    and delete buttons that drop records from the arrays and re-apply the
    search. The rendered grid is modelled by the list it was last given. */
module Legacy {
  import opened Entities
  import opened Text
  import opened Seqs
  import opened Api
  import StoreState

  // ---------------------------------------------------------------------------
  // filterUsers
  // ---------------------------------------------------------------------------

  /** `user.role || 'user'`: a missing or empty role reads as "user". */
  function RoleOf(u: User): (r: string)
    ensures r != ""
    ensures u.role.Some? && u.role.value != "" ==> r == u.role.value
    ensures !(u.role.Some? && u.role.value != "") ==> r == "user"
  {
    if u.role.Some? && u.role.value != "" then u.role.value else "user"
  }

  /** An empty role selection lets every user through; otherwise the roles
      must agree up to letter case. */
  predicate RoleMatches(u: User, roleFilter: string) {
    roleFilter == "" || Lower(RoleOf(u)) == Lower(roleFilter)
  }

  /** The search term, lower-cased and then trimmed, occurs in the lower-cased
      first name, last name or e-mail address. */
  predicate NameMatches(u: User, term: string) {
    var t := Trim(Lower(term));
    Contains(Lower(u.firstName), t) || Contains(Lower(u.lastName), t) || Contains(Lower(u.email), t)
  }

  /** Whether filterUsers keeps a user: a blank term filters by role alone. */
  predicate UserShown(u: User, term: string, roleFilter: string) {
    if IsBlank(term) then RoleMatches(u, roleFilter)
    else NameMatches(u, term) && RoleMatches(u, roleFilter)
  }

  function UserTest(term: string, roleFilter: string): User -> bool {
    (u: User) => UserShown(u, term, roleFilter)
  }

  /** The list filterUsers hands to the grid. */
  function FilterUsersList(users: seq<User>, term: string, roleFilter: string): seq<User> {
    Filter(users, UserTest(term, roleFilter))
  }

  /** The listed users are exactly the ones kept, in their original order. */
  lemma FilterUsersExactly(users: seq<User>, term: string, roleFilter: string)
    ensures |FilterUsersList(users, term, roleFilter)| == |KeptIndices(users, UserTest(term, roleFilter))|
    ensures forall k :: 0 <= k < |FilterUsersList(users, term, roleFilter)| ==>
      FilterUsersList(users, term, roleFilter)[k] == users[KeptIndices(users, UserTest(term, roleFilter))[k]]
    ensures forall k, l :: 0 <= k < l < |KeptIndices(users, UserTest(term, roleFilter))| ==>
      KeptIndices(users, UserTest(term, roleFilter))[k] < KeptIndices(users, UserTest(term, roleFilter))[l]
    ensures forall i :: i in KeptIndices(users, UserTest(term, roleFilter)) <==>
      0 <= i < |users| && UserShown(users[i], term, roleFilter)
  {
    var test := UserTest(term, roleFilter);
    FilterIsSubsequence(users, test);
    assert forall u :: test(u) == UserShown(u, term, roleFilter);
  }

  /** With a blank or whitespace-only term, only the role counts. */
  lemma BlankTermFiltersByRole(u: User, term: string, roleFilter: string)
    requires AllWhitespace(term)
    ensures UserShown(u, term, roleFilter) <==> RoleMatches(u, roleFilter)
  {
    BlankIffAllWhitespace(term);
  }

  /** With a term that is not blank, the name and the role must both match. */
  lemma TermAndRoleBothNeeded(u: User, term: string, roleFilter: string)
    requires !AllWhitespace(term)
    ensures UserShown(u, term, roleFilter) <==> NameMatches(u, term) && RoleMatches(u, roleFilter)
  {
    BlankIffAllWhitespace(term);
  }

  /** An empty search and no role selected list every user. */
  lemma NoFiltersShowAll(users: seq<User>)
    ensures FilterUsersList(users, "", "") == users
  {
    FilterKeepsAll(users, UserTest("", ""));
  }

  /** Whitespace around the term is ignored, and so is its letter case. */
  lemma TermTrimmedAndCaseBlind(u: User, term: string, roleFilter: string)
    ensures UserShown(u, Trim(term), roleFilter) == UserShown(u, term, roleFilter)
    ensures UserShown(u, Lower(term), roleFilter) == UserShown(u, term, roleFilter)
  {
    TrimLower(term);
    TrimIdempotent(Lower(term));
    TrimIdempotent(term);
    TrimLower(Trim(term));
    assert IsBlank(Trim(term)) == IsBlank(term);
    LowerIdempotent(term);
    BlankLower(term);
  }

  /** The role selection is compared without regard to letter case, and a user
      without a role, or with an empty one, passes the "user" selection. */
  lemma RoleCaseBlind(u: User, roleFilter: string)
    ensures RoleMatches(u, Lower(roleFilter)) == RoleMatches(u, roleFilter)
    ensures (u.role.None? || u.role == Some("")) ==> RoleMatches(u, "user") && RoleMatches(u, "User")
  {
    LowerIdempotent(roleFilter);
    assert Lower("user") == "user";
    assert Lower("User") == "user";
  }

  // ---------------------------------------------------------------------------
  // Store owners and filterStores
  // ---------------------------------------------------------------------------

  /** A user that can be listed as a store: one with a company whose name is
      not empty. */
  predicate IsStoreOwner(u: User) {
    u.company.Some? && u.company.value.name != ""
  }

  type StoreOwner = u: User | IsStoreOwner(u)
    witness User(0, "", "", "", None, Some(Company("store", "", "")))

  function StoreName(s: StoreOwner): string {
    s.company.value.name
  }

  /** The users the store page keeps when it loads. */
  function StoreOwners(users: seq<User>): seq<StoreOwner>
  {
    Filter(users, IsStoreOwner)
  }

  /** Exactly the users with a named company become stores, in their original
      order. */
  lemma StoreOwnersExactly(users: seq<User>)
    ensures var r, idx := StoreOwners(users), KeptIndices(users, IsStoreOwner);
      && |r| == |idx|
      && (forall k :: 0 <= k < |r| ==> r[k] == users[idx[k]])
      && (forall k, l :: 0 <= k < l < |idx| ==> idx[k] < idx[l])
      && (forall i :: i in idx <==> 0 <= i < |users| && IsStoreOwner(users[i]))
  {
    FilterIsSubsequence(users, IsStoreOwner);
  }

  /** The trimmed, lower-cased term occurs in the company name, the owner's
      first or last name, or the department. A blank term keeps every store. */
  predicate StoreShown(s: StoreOwner, term: string) {
    var t := Trim(Lower(term));
    IsBlank(term)
    || Contains(Lower(s.company.value.name), t) || Contains(Lower(s.firstName), t)
    || Contains(Lower(s.lastName), t) || Contains(Lower(s.company.value.department), t)
  }

  function StoreTest(term: string): StoreOwner -> bool {
    (s: StoreOwner) => StoreShown(s, term)
  }

  function FilterStoresList(stores: seq<StoreOwner>, term: string): seq<StoreOwner> {
    Filter(stores, StoreTest(term))
  }

  /** A blank or whitespace-only term lists every store. */
  lemma BlankTermShowsAllStores(stores: seq<StoreOwner>, term: string)
    requires AllWhitespace(term)
    ensures FilterStoresList(stores, term) == stores
  {
    BlankIffAllWhitespace(term);
    FilterKeepsAll(stores, StoreTest(term));
  }

  /** Otherwise a store is listed exactly when one of its four fields matches,
      and the listing keeps the original order. */
  lemma FilterStoresExactly(stores: seq<StoreOwner>, term: string)
    ensures var r, idx := FilterStoresList(stores, term), KeptIndices(stores, StoreTest(term));
      && |r| == |idx|
      && (forall k :: 0 <= k < |r| ==> r[k] == stores[idx[k]])
      && (forall k, l :: 0 <= k < l < |idx| ==> idx[k] < idx[l])
      && (forall i :: i in idx <==> 0 <= i < |stores| && StoreShown(stores[i], term))
  {
    FilterIsSubsequence(stores, StoreTest(term));
  }

  /** Whitespace around the term is ignored, and so is its letter case. */
  lemma StoreTermTrimmedAndCaseBlind(s: StoreOwner, term: string)
    ensures StoreShown(s, Trim(term)) == StoreShown(s, term)
    ensures StoreShown(s, Lower(term)) == StoreShown(s, term)
  {
    TrimLower(term);
    TrimIdempotent(Lower(term));
    TrimIdempotent(term);
    TrimLower(Trim(term));
    assert IsBlank(Trim(term)) == IsBlank(term);
    LowerIdempotent(term);
    BlankLower(term);
  }

  // ---------------------------------------------------------------------------
  // Deletions
  // ---------------------------------------------------------------------------

  /** `allUsers.filter(u => u.id !== userId)`: the store's removal by id, so
      the facts proved about `StoreState.WithoutKey` hold for it too. */
  function WithoutUser(users: seq<User>, id: int): (r: seq<User>)
    ensures forall i :: 0 <= i < |r| ==> r[i].id != id
  {
    StoreState.WithoutKey(users, StoreState.UserId, id)
  }

  /** Every other user survives deleteUserLive, nothing new appears, and the
      array shrinks by the number of records with that id. */
  lemma WithoutUserKeepsOthers(users: seq<User>, id: int)
    ensures forall i :: 0 <= i < |users| && users[i].id != id ==> users[i] in WithoutUser(users, id)
    ensures forall u :: u in WithoutUser(users, id) ==> u in users && u.id != id
    ensures |WithoutUser(users, id)| == |users| - |Filter(users, StoreState.Has(StoreState.UserId, id))|
  {
    StoreState.WithoutKeyKeepsOthers(users, StoreState.UserId, id);
    StoreState.WithoutKeyCount(users, StoreState.UserId, id);
  }

  function OtherName(name: string): StoreOwner -> bool {
    (s: StoreOwner) => StoreName(s) != name
  }

  /** `allStores.filter(s => s.company.name !== storeName)`: every store of that
      name goes, however many there are. */
  function WithoutStore(stores: seq<StoreOwner>, name: string): (r: seq<StoreOwner>)
    ensures forall i :: 0 <= i < |r| ==> StoreName(r[i]) != name
  {
    Filter(stores, OtherName(name))
  }

  /** Deleting a user and re-filtering shows what was shown before, less that
      user: the two filters commute. */
  lemma DeleteThenFilterUsers(users: seq<User>, id: int, term: string, roleFilter: string)
    ensures FilterUsersList(WithoutUser(users, id), term, roleFilter)
         == WithoutUser(FilterUsersList(users, term, roleFilter), id)
  {
    FilterCommutes(users, StoreState.Other(StoreState.UserId, id), UserTest(term, roleFilter));
  }

  lemma DeleteThenFilterStores(stores: seq<StoreOwner>, name: string, term: string)
    ensures FilterStoresList(WithoutStore(stores, name), term)
         == WithoutStore(FilterStoresList(stores, term), name)
  {
    FilterCommutes(stores, OtherName(name), StoreTest(term));
  }

  /** Every store with another name survives the deletion, in order. */
  lemma WithoutStoreKeepsOthers(stores: seq<StoreOwner>, name: string)
    ensures forall i :: 0 <= i < |stores| && StoreName(stores[i]) != name ==> stores[i] in WithoutStore(stores, name)
    ensures |WithoutStore(stores, name)| == |stores| - |Filter(stores, (s: StoreOwner) => StoreName(s) == name)|
    ensures |WithoutStore(stores, name)| == |KeptIndices(stores, OtherName(name))|
    ensures forall k :: 0 <= k < |WithoutStore(stores, name)| ==>
              WithoutStore(stores, name)[k] == stores[KeptIndices(stores, OtherName(name))[k]]
    ensures forall k, l :: 0 <= k < l < |KeptIndices(stores, OtherName(name))| ==>
              KeptIndices(stores, OtherName(name))[k] < KeptIndices(stores, OtherName(name))[l]
  {
    FilterIsSubsequence(stores, OtherName(name));
    FilterMembers(stores, OtherName(name));
    FilterSplit(stores, OtherName(name), (s: StoreOwner) => StoreName(s) == name);
  }

  /** Deleting a store name nobody has changes nothing, and only then. */
  lemma DeleteAbsentStore(stores: seq<StoreOwner>, name: string)
    ensures WithoutStore(stores, name) == stores <==> forall i :: 0 <= i < |stores| ==> StoreName(stores[i]) != name
  {
    FilterKeepsAll(stores, OtherName(name));
  }

  // ---------------------------------------------------------------------------
  // The page state
  // ---------------------------------------------------------------------------

  /** The stores page fetches the users endpoint with a field selection. */
  function LoadStoresRequest(): Request {
    Request(Get, UsersRequest().url + "&select=firstName,lastName,email,phone,company,address,image")
  }

  class LegacyPages {
    /** `window.allUsers` / `window.allStores`: absent until the first load. */
    var allUsers: Option<seq<User>>
    var allStores: Option<seq<StoreOwner>>
    /** The values of the search boxes and the role selector. */
    var userSearch: string
    var roleFilter: string
    var storeSearch: string
    /** The lists the two grids last displayed. */
    var shownUsers: seq<User>
    var shownStores: seq<StoreOwner>

    /** Once loaded, each grid shows its array filtered by the current inputs. */
    predicate Valid()
      reads this
    {
      UsersShown() && StoresShown()
    }

    predicate UsersShown()
      reads this`allUsers, this`shownUsers, this`userSearch, this`roleFilter
    {
      allUsers.Some? ==> shownUsers == FilterUsersList(allUsers.value, userSearch, roleFilter)
    }

    predicate StoresShown()
      reads this`allStores, this`shownStores, this`storeSearch
    {
      allStores.Some? ==> shownStores == FilterStoresList(allStores.value, storeSearch)
    }

    constructor()
      ensures Valid()
      ensures allUsers == None && allStores == None
      ensures userSearch == "" && roleFilter == "" && storeSearch == ""
      ensures shownUsers == [] && shownStores == []
    {
      allUsers, allStores := None, None;
      userSearch, roleFilter, storeSearch := "", "", "";
      shownUsers, shownStores := [], [];
    }

    /** `filterUsers(term)`: nothing happens before the users are loaded. */
    method FilterUsers(term: string)
      modifies this`shownUsers
      ensures allUsers.None? ==> shownUsers == old(shownUsers)
      ensures allUsers.Some? ==> shownUsers == FilterUsersList(allUsers.value, term, roleFilter)
    {
      if allUsers.Some? {
        shownUsers := FilterUsersList(allUsers.value, term, roleFilter);
      }
    }

    /** `filterStores(term)`: nothing happens before the stores are loaded. */
    method FilterStores(term: string)
      modifies this`shownStores
      ensures allStores.None? ==> shownStores == old(shownStores)
      ensures allStores.Some? ==> shownStores == FilterStoresList(allStores.value, term)
    {
      if allStores.Some? {
        shownStores := FilterStoresList(allStores.value, term);
      }
    }

    /** Typing in the user search box. */
    method TypeUserSearch(term: string)
      requires Valid()
      modifies this`userSearch, this`shownUsers
      ensures Valid() && userSearch == term
      ensures allUsers.None? ==> shownUsers == old(shownUsers)
    {
      userSearch := term;
      FilterUsers(term);
    }

    /** Choosing a role; the search box keeps its text. */
    method SelectRole(role: string)
      requires Valid()
      modifies this`roleFilter, this`shownUsers
      ensures Valid() && roleFilter == role
      ensures allUsers.None? ==> shownUsers == old(shownUsers)
    {
      roleFilter := role;
      FilterUsers(userSearch);
    }

    /** Typing in the store search box. */
    method TypeStoreSearch(term: string)
      requires Valid()
      modifies this`storeSearch, this`shownStores
      ensures Valid() && storeSearch == term
      ensures allStores.None? ==> shownStores == old(shownStores)
    {
      storeSearch := term;
      FilterStores(term);
    }

    /** "Load All Users": the reply's `users` list (an empty list when the body
        has none) replaces the array and is shown whole; the search box and the
        role selector are cleared. A failed call changes nothing. */
    method LoadUsers(reply: Reply<Option<seq<User>>>) returns (req: Request)
      requires Valid()
      modifies this`allUsers, this`shownUsers, this`userSearch, this`roleFilter
      ensures Valid() && req == UsersRequest()
      ensures reply.Success? ==>
        && allUsers == Some(if reply.value.Some? then reply.value.value else [])
        && shownUsers == allUsers.value
        && userSearch == "" && roleFilter == ""
      ensures reply.Failure? ==>
        allUsers == old(allUsers) && shownUsers == old(shownUsers)
        && userSearch == old(userSearch) && roleFilter == old(roleFilter)
    {
      req := UsersRequest();
      if reply.Success? {
        ShowAllUsers(if reply.value.Some? then reply.value.value else []);
      }
    }

    /** The part of loadUsers after a successful call: the list replaces the
        array and is shown whole, with both inputs cleared. */
    method ShowAllUsers(users: seq<User>)
      requires StoresShown()
      modifies this`allUsers, this`shownUsers, this`userSearch, this`roleFilter
      ensures Valid()
      ensures allUsers == Some(users) && shownUsers == users
      ensures userSearch == "" && roleFilter == ""
    {
      NoFiltersShowAll(users);
      allUsers := Some(users);
      shownUsers := users;
      userSearch, roleFilter := "", "";
    }

    /** "Load All Stores": the users with a named company replace the array
        and are shown whole; the search box is cleared. A failed call, or a
        body without a user list, changes nothing. */
    method LoadStores(reply: Reply<seq<User>>) returns (req: Request)
      requires Valid()
      modifies this`allStores, this`shownStores, this`storeSearch
      ensures Valid() && req == LoadStoresRequest()
      ensures reply.Success? ==>
        && allStores == Some(StoreOwners(reply.value))
        && shownStores == StoreOwners(reply.value)
        && storeSearch == ""
      ensures reply.Failure? ==>
        allStores == old(allStores) && shownStores == old(shownStores) && storeSearch == old(storeSearch)
    {
      req := LoadStoresRequest();
      if reply.Success? {
        var stores := StoreOwners(reply.value);
        allStores := Some(stores);
        shownStores := stores;
        storeSearch := "";
        BlankTermShowsAllStores(stores, "");
      }
    }

    /** `deleteUserLive`: after the user confirms and the service answers, the
        user leaves the array and the current search is re-applied. Declining,
        or a failed call, changes nothing. */
    method DeleteUserLive(id: int, confirmed: bool, reply: Reply<User>) returns (req: Option<Request>)
      requires Valid()
      modifies this`allUsers, this`shownUsers
      ensures Valid()
      ensures req == if confirmed then Some(DeleteUserRequest(id)) else None
      ensures confirmed && reply.Success? && old(allUsers).Some? ==>
        && allUsers == Some(WithoutUser(old(allUsers).value, id))
        && shownUsers == WithoutUser(old(shownUsers), id)
      ensures !(confirmed && reply.Success? && old(allUsers).Some?) ==>
        allUsers == old(allUsers) && shownUsers == old(shownUsers)
    {
      req := if confirmed then Some(DeleteUserRequest(id)) else None;
      if confirmed && reply.Success? {
        RemoveUser(id);
      }
    }

    /** The part of deleteUserLive after a successful call. */
    method RemoveUser(id: int)
      requires Valid()
      modifies this`allUsers, this`shownUsers
      ensures Valid()
      ensures old(allUsers).Some? ==>
        && allUsers == Some(WithoutUser(old(allUsers).value, id))
        && shownUsers == WithoutUser(old(shownUsers), id)
      ensures old(allUsers).None? ==> allUsers == old(allUsers) && shownUsers == old(shownUsers)
    {
      if allUsers.Some? {
        DeleteThenFilterUsers(allUsers.value, id, userSearch, roleFilter);
        allUsers := Some(WithoutUser(allUsers.value, id));
        FilterUsers(userSearch);
      }
    }

    /** `deleteStoreLive`: a demo action with no remote call. Once confirmed,
        every store with that company name leaves the array and the current
        search is re-applied. */
    method DeleteStoreLive(name: string, confirmed: bool)
      requires Valid()
      modifies this`allStores, this`shownStores
      ensures Valid()
      ensures confirmed && old(allStores).Some? ==>
        && allStores == Some(WithoutStore(old(allStores).value, name))
        && shownStores == WithoutStore(old(shownStores), name)
      ensures !(confirmed && old(allStores).Some?) ==>
        allStores == old(allStores) && shownStores == old(shownStores)
    {
      if confirmed && allStores.Some? {
        DeleteThenFilterStores(allStores.value, name, storeSearch);
        allStores := Some(WithoutStore(allStores.value, name));
        FilterStores(storeSearch);
      }
    }
  }
}
